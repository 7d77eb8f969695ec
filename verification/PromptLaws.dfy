/** Where the managed block goes in a prompt, and exactly what leaves with it. */
module PromptLaws {
  import opened Common
  import opened PromptGuard

  /** The text t begins at position i of s. */
  predicate At(s: string, i: nat, t: string) {
    i <= |s| && |t| <= |s| - i && s[i..][..|t|] == t
  }

  predicate Nowhere(s: string, t: string) {
    forall i :: 0 <= i <= |s| ==> !At(s, i, t)
  }

  /** The first occurrence at or after k. */
  predicate FirstAt(s: string, k: nat, i: nat, t: string) {
    k <= i && At(s, i, t) && forall j :: k <= j < i ==> !At(s, j, t)
  }

  lemma AtIsOccurs(s: string, i: nat, t: string)
    ensures At(s, i, t) <==> OccursAt(s, i, t)
  {
    if i <= |s| && |t| <= |s| - i {
      assert s[i..][..|t|] == s[i..i + |t|];
    }
  }

  lemma IndexIsFirst(s: string, t: string, k: nat)
    ensures IndexFrom(s, t, k).Some? ==> FirstAt(s, k, IndexFrom(s, t, k).value, t)
    ensures IndexFrom(s, t, k) == None ==> forall j :: k <= j <= |s| ==> !At(s, j, t)
    ensures forall i: nat :: FirstAt(s, k, i, t) ==> IndexFrom(s, t, k) == Some(i)
  {
    forall j: nat
      ensures At(s, j, t) <==> OccursAt(s, j, t)
    {
      AtIsOccurs(s, j, t);
    }
    hide At, OccursAt;
    forall i: nat | FirstAt(s, k, i, t)
      ensures IndexFrom(s, t, k) == Some(i)
    {
      assert IndexFrom(s, t, k).Some?;
      var r := IndexFrom(s, t, k).value;
      assert !(r < i) && !(i < r);
    }
  }

  /** A prompt without markers gets the block and a blank line, in front of the first anchor, or at the
      very beginning if there is none; everything else stays. */
  lemma EnableInserts(p: string, t: Template)
    requires Nowhere(p, t.start) && Nowhere(p, t.end)
    ensures Nowhere(p, t.anchor) ==> Enabled(p, t) == Some(t.block + "\n\n" + p)
    ensures forall i: nat :: FirstAt(p, 0, i, t.anchor) ==>
              Enabled(p, t) == Some(p[..i] + t.block + "\n\n" + p[i..])
  {
    IndexIsFirst(p, t.start, 0);
    IndexIsFirst(p, t.end, 0);
    IndexIsFirst(p, t.anchor, 0);
    hide At;
    assert IndexFrom(p, t.start, 0) == None && IndexFrom(p, t.end, 0) == None;
    if Nowhere(p, t.anchor) {
      assert p[..0] + t.block + GAP + p[0..] == t.block + "\n\n" + p;
    }
  }

  /** A prompt with a complete block is left as it is; one with a stray marker is refused. */
  lemma EnableRefuses(p: string, t: Template)
    requires !(Nowhere(p, t.start) && Nowhere(p, t.end))
    ensures Enabled(p, t) == Some(p) <==> exists i, j :: FirstAt(p, 0, i, t.start) && FirstAt(p, i, j, t.end)
    ensures Enabled(p, t) == Some(p) || Enabled(p, t) == None
  {
    IndexIsFirst(p, t.start, 0);
    IndexIsFirst(p, t.end, 0);
    hide At;
    if IndexFrom(p, t.start, 0).Some? {
      IndexIsFirst(p, t.end, IndexFrom(p, t.start, 0).value);
      if HasGuard(p, t) {
        var i := IndexFrom(p, t.start, 0).value;
        assert FirstAt(p, 0, i, t.start) && FirstAt(p, i, IndexFrom(p, t.end, i).value, t.end);
      }
    }
    forall i: nat, j: nat | FirstAt(p, 0, i, t.start) && FirstAt(p, i, j, t.end)
      ensures HasGuard(p, t)
    {
      IndexIsFirst(p, t.end, i);
    }
  }

  /** What is left when the text from i to the end marker at j goes, with one blank line behind it. */
  function Cut(p: string, i: nat, j: nat, end: string): string
    requires i <= j && j + |end| <= |p|
  {
    var rest := p[j + |end|..];
    p[..i] + if "\n\n" <= rest then rest[2..] else rest
  }

  /** Disabling takes out the text from the first start marker to the first end marker behind it, and one
      blank line, and goes on with what is left; without such a pair it changes nothing. */
  lemma DisableCuts(p: string, t: Template, i: nat, j: nat)
    requires t.end != "" && FirstAt(p, 0, i, t.start) && FirstAt(p, i, j, t.end)
    ensures j + |t.end| <= |p| && Disabled(p, t) == Disabled(Cut(p, i, j, t.end), t)
  {
    FirstFits(p, i, j, t.end);
    IndexIsFirst(p, t.start, 0);
    IndexIsFirst(p, t.end, i);
    hide FirstAt, At, IndexFrom, Disabled, Cut;
    RemovedIsCut(p, t, i, j);
    DisabledStep(p, t);
  }

  lemma FirstFits(s: string, k: nat, i: nat, t: string)
    requires FirstAt(s, k, i, t)
    ensures i + |t| <= |s| && k <= i
  {
  }

  lemma RemovedIsCut(p: string, t: Template, i: nat, j: nat)
    requires IndexFrom(p, t.start, 0) == Some(i) && IndexFrom(p, t.end, i) == Some(j) && j + |t.end| <= |p|
    ensures HasGuard(p, t) && i <= j && RemoveFirst(p, t) == Cut(p, i, j, t.end)
  {
    hide IndexFrom;
    var rest := p[j + |t.end|..];
    if |rest| >= 2 {
      assert p[j + |t.end|..j + |t.end| + 2] == rest[..2];
    }
  }

  lemma DisabledStep(p: string, t: Template)
    requires t.end != "" && HasGuard(p, t)
    ensures Disabled(p, t) == Disabled(RemoveFirst(p, t), t)
  {
  }

  /** The text occurs at i and nowhere else. */
  predicate OnlyAt(s: string, i: nat, t: string) {
    At(s, i, t) && forall j :: 0 <= j <= |s| && j != i ==> !At(s, j, t)
  }

  lemma OnlyIsCounted(s: string, i: nat, t: string)
    requires t != "" && OnlyAt(s, i, t)
    ensures CountFrom(s, t, 0) == 1 && IndexFrom(s, t, 0) == Some(i)
  {
    IndexIsFirst(s, t, 0);
    IndexIsFirst(s, t, i + |t|);
    hide At;
    assert FirstAt(s, 0, i, t);
    assert IndexFrom(s, t, i + |t|) == None;
    assert CountFrom(s, t, i + |t|) == 0;
  }

  lemma {:induction false} UnixKeeps(s: string)
    requires '\r' !in s
    ensures UnixLines(s) == s
  {
    if s != "" {
      UnixKeeps(s[1..]);
    }
  }

  lemma OnlyFits(s: string, i: nat, t: string)
    requires OnlyAt(s, i, t)
    ensures i + |t| <= |s|
  {
  }

  lemma RefreshedAt(p: string, t: Template, legacy: string, i: nat, j: nat)
    requires t.start != "" && t.end != "" && CountFrom(p, t.start, 0) == 1 && CountFrom(p, t.end, 0) == 1
    requires IndexFrom(p, t.start, 0) == Some(i) && IndexFrom(p, t.end, 0) == Some(j) && i <= j && j + |t.end| <= |p|
    ensures Refreshed(p, t, legacy)
         == if UnixLines(p[i..j + |t.end|]) == legacy then p[..i] + t.block + p[j + |t.end|..] else p
  {
    hide CountFrom, IndexFrom, UnixLines;
  }

  /** A prompt with one start and one end marker: the text between them, both included, gives way to the
      current block if it is the older release's block, and otherwise nothing changes. */
  lemma RefreshReplaces(p: string, t: Template, legacy: string, i: nat, j: nat)
    requires t.start != "" && t.end != "" && OnlyAt(p, i, t.start) && OnlyAt(p, j, t.end) && i <= j
    requires '\r' !in p
    ensures j + |t.end| <= |p|
    ensures Refreshed(p, t, legacy)
         == if p[i..j + |t.end|] == legacy then p[..i] + t.block + p[j + |t.end|..] else p
  {
    hide *;
    OnlyFits(p, j, t.end);
    OnlyIsCounted(p, i, t.start);
    OnlyIsCounted(p, j, t.end);
    UnixKeeps(p[i..j + |t.end|]);
    RefreshedAt(p, t, legacy, i, j);
  }
}
