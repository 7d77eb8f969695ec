/** The managed block of the prompt editor: inserting it, removing it, and refreshing it. */
module PromptGuard {
  import opened Common

  datatype Template = Template(block: string, start: string, end: string, anchor: string)

  predicate OccursAt(s: string, i: nat, t: string) {
    i + |t| <= |s| && s[i..i + |t|] == t
  }

  /** The first occurrence of t in s at or after k. */
  function IndexFrom(s: string, t: string, k: nat): (r: Option<nat>)
    ensures r.Some? ==> k <= r.value && OccursAt(s, r.value, t) && forall j :: k <= j < r.value ==> !OccursAt(s, j, t)
    ensures r == None ==> forall j :: k <= j ==> !OccursAt(s, j, t)
    decreases |s| - k
  {
    if k + |t| > |s| then None
    else if s[k..k + |t|] == t then Some(k)
    else IndexFrom(s, t, k + 1)
  }

  predicate Includes(s: string, t: string) {
    IndexFrom(s, t, 0).Some?
  }

  predicate HasGuard(p: string, t: Template) {
    var start := IndexFrom(p, t.start, 0);
    start.Some? && IndexFrom(p, t.end, start.value).Some?
  }

  const GAP := "\n\n"

  /** One complete block without the blank line after it. */
  function RemoveFirst(p: string, t: Template): string
    requires HasGuard(p, t)
  {
    var start := IndexFrom(p, t.start, 0).value;
    var end := IndexFrom(p, t.end, start).value + |t.end|;
    var end1 := if OccursAt(p, end, GAP) then end + 2 else end;
    p[..start] + p[end1..]
  }

  function Disabled(p: string, t: Template): string
    requires t.end != ""
    decreases |p|
  {
    if HasGuard(p, t) then Disabled(RemoveFirst(p, t), t) else p
  }

  function InsertAt(p: string, t: Template): nat
    ensures InsertAt(p, t) <= |p|
  {
    var a := IndexFrom(p, t.anchor, 0);
    if a.Some? then a.value else 0
  }

  function Inserted(p: string, t: Template): string {
    var i := InsertAt(p, t);
    p[..i] + t.block + GAP + p[i..]
  }

  /** None is the error for a stray marker. */
  function Enabled(p: string, t: Template): Option<string> {
    if HasGuard(p, t) then Some(p)
    else if Includes(p, t.start) || Includes(p, t.end) then None
    else Some(Inserted(p, t))
  }

  method RemoveBlock(p: string, t: Template) returns (rest: string)
    requires HasGuard(p, t)
    ensures rest == RemoveFirst(p, t)
  {
    var start := IndexFrom(p, t.start, 0).value;
    var end := IndexFrom(p, t.end, start).value + |t.end|;
    if OccursAt(p, end, GAP) {
      end := end + 2;
    }
    rest := p[..start] + p[end..];
  }

  method SetDataGuard(prompt: string, enabled: bool, t: Template) returns (r: Option<string>)
    requires t.end != ""
    ensures r == if enabled then Enabled(prompt, t) else Some(Disabled(prompt, t))
  {
    hide HasGuard, RemoveFirst, Includes;
    if enabled && HasGuard(prompt, t) {
      return Some(prompt);
    }
    if enabled {
      if Includes(prompt, t.start) || Includes(prompt, t.end) {
        return None;
      }
      var anchor := IndexFrom(prompt, t.anchor, 0);
      var index := if anchor == None then 0 else anchor.value;
      return Some(prompt[..index] + t.block + GAP + prompt[index..]);
    }
    var p := prompt;
    while HasGuard(p, t)
      invariant Disabled(p, t) == Disabled(prompt, t)
      decreases |p|
    {
      RemovalShrinks(p, t);
      p := RemoveBlock(p, t);
    }
    return Some(p);
  }

  lemma RemovalShrinks(p: string, t: Template)
    requires HasGuard(p, t) && t.end != ""
    ensures |RemoveFirst(p, t)| < |p|
  {
  }

  /** Disabling leaves no complete block, and leaves a prompt without one alone. */
  lemma {:induction false} DisabledHasNoGuard(p: string, t: Template)
    requires t.end != ""
    ensures !HasGuard(Disabled(p, t), t)
    ensures Disabled(p, t) == p <==> !HasGuard(p, t)
    decreases |p|
  {
    if HasGuard(p, t) {
      DisabledHasNoGuard(RemoveFirst(p, t), t);
      DisabledShrinks(RemoveFirst(p, t), t);
    }
  }

  lemma {:induction false} DisabledShrinks(p: string, t: Template)
    requires t.end != ""
    ensures |Disabled(p, t)| <= |p|
    decreases |p|
  {
    if HasGuard(p, t) {
      DisabledShrinks(RemoveFirst(p, t), t);
    }
  }

  // ---------------------------------------------------------------- the round trip

  /** The block starts with the start marker and its first end marker is its last characters. */
  predicate ProperBlock(t: Template) {
    && t.start != "" && t.end != "" && |t.start| + |t.end| <= |t.block|
    && OccursAt(t.block, 0, t.start) && IndexFrom(t.block, t.end, 0) == Some(|t.block| - |t.end|)
  }

  /** A proper non-empty prefix of s is also a suffix, of length k. */
  predicate Border(s: string, k: nat) {
    0 < k < |s| && s[..k] == s[|s| - k..]
  }

  predicate Borderless(s: string) {
    forall k :: 0 < k < |s| ==> !Border(s, k)
  }

  /** The text before the insertion ends like the marker up to one of its borders, so marker and
      inserted block together read as an earlier marker. */
  predicate Straddles(before: string, s: string) {
    exists k :: 0 < k < |s| && Border(s, k) && |s| - k <= |before| && before[|before| - (|s| - k)..] == s[..|s| - k]
  }

  /** Occurrences in a concatenation lie in a part or across the seam. */
  lemma OccursInParts(a: string, b: string, i: nat, t: string)
    ensures i + |t| <= |a| ==> (OccursAt(a + b, i, t) <==> OccursAt(a, i, t))
    ensures i >= |a| ==> (OccursAt(a + b, i, t) <==> OccursAt(b, i - |a|, t))
  {
    if i + |t| <= |a| {
      assert (a + b)[i..i + |t|] == a[i..i + |t|];
    }
    if i >= |a| && i + |t| <= |a + b| {
      assert (a + b)[i..i + |t|] == b[i - |a|..i - |a| + |t|];
    }
  }

  /** An occurrence of s across the seam before another s is a border of s that `before` completes. */
  lemma SeamIsBorder(before: string, s: string, rest: string, i: nat)
    requires i < |before| < i + |s|
    requires OccursAt(before + (s + rest), i, s)
    ensures Straddles(before, s)
  {
    var whole := before + (s + rest);
    var k := i + |s| - |before|;
    assert whole[i..i + |s|] == s;
    assert s[|s| - k..] == whole[|before|..|before| + k] == s[..k];
    assert before[|before| - (|s| - k)..] == whole[i..|before|] == s[..|s| - k];
    assert Border(s, k);
  }

  lemma StraddleIsSeam(before: string, s: string, rest: string)
    requires Straddles(before, s)
    ensures exists i: nat :: i < |before| && OccursAt(before + (s + rest), i, s)
  {
    var k :| 0 < k < |s| && Border(s, k) && |s| - k <= |before| && before[|before| - (|s| - k)..] == s[..|s| - k];
    var i := |before| - (|s| - k);
    var whole := before + (s + rest);
    assert whole[i..|before|] == s[..|s| - k];
    assert whole[|before|..i + |s|] == s[..k];
    assert whole[i..i + |s|] == whole[i..|before|] + whole[|before|..i + |s|];
    assert s == s[..|s| - k] + s[|s| - k..];
    assert OccursAt(whole, i, s);
  }

  lemma OccursInPrefix(p: string, i: nat, tail: string, f: nat, s: string)
    requires f + |s| <= i <= |p| && OccursAt(p[..i] + tail, f, s)
    ensures OccursAt(p, f, s)
  {
    OccursInParts(p[..i], tail, f, s);
    OccursInParts(p[..i], p[i..], f, s);
    assert p == p[..i] + p[i..];
  }

  lemma OccursAtSeam(before: string, s: string, rest: string)
    ensures OccursAt(before + (s + rest), |before|, s)
  {
    OccursInParts(before, s + rest, |before|, s);
    OccursInParts(s, rest, 0, s);
  }

  lemma FirstIsLeast(q: string, s: string, i: nat)
    requires OccursAt(q, i, s)
    ensures IndexFrom(q, s, 0).Some? && IndexFrom(q, s, 0).value <= i && OccursAt(q, IndexFrom(q, s, 0).value, s)
    ensures forall j :: 0 <= j < IndexFrom(q, s, 0).value ==> !OccursAt(q, j, s)
  {
  }

  /** Putting a marker into text that has none: the first occurrence is where it was put, unless the
      text before it completes a border of the marker. */
  lemma FirstOfInsertion(p: string, i: nat, s: string, rest: string)
    requires i <= |p| && s != "" && !Includes(p, s)
    ensures var f := IndexFrom(p[..i] + (s + rest), s, 0);
            f.Some? && f.value <= i && (f.value == i <==> !Straddles(p[..i], s))
  {
    var before := p[..i];
    var q := before + (s + rest);
    OccursAtSeam(before, s, rest);
    FirstIsLeast(q, s, i);
    var f := IndexFrom(q, s, 0).value;
    assert forall j: nat :: !OccursAt(p, j, s);
    hide OccursAt, IndexFrom, Straddles, Includes;
    if f < i {
      if f + |s| <= i {
        OccursInPrefix(p, i, s + rest, f, s);
      } else {
        SeamIsBorder(before, s, rest, f);
      }
    } else if Straddles(before, s) {
      StraddleIsSeam(before, s, rest);
    }
  }

  predicate Unmarked(p: string, t: Template) {
    !Includes(p, t.start) && !Includes(p, t.end)
  }

  /** No end marker reaches from the text before the block into the block. */
  predicate EndStaysOut(t: Template) {
    forall k :: 0 < k < |t.end| && k <= |t.block| ==> t.end[|t.end| - k..] != t.block[..k]
  }

  lemma OccursInBlock(before: string, block: string, tail: string, j: nat, e: string)
    requires |before| <= j && j + |e| <= |before| + |block|
    ensures OccursAt(before + (block + tail), j, e) <==> OccursAt(block, j - |before|, e)
  {
    OccursInParts(before, block + tail, j, e);
    OccursInParts(block, tail, j - |before|, e);
  }

  lemma InsertedParts(p: string, t: Template)
    ensures Inserted(p, t) == p[..InsertAt(p, t)] + (t.block + (GAP + p[InsertAt(p, t)..]))
  {
    hide InsertAt;
    var i := InsertAt(p, t);
    assert p[..i] + t.block + GAP + p[i..] == p[..i] + (t.block + (GAP + p[i..]));
  }

  lemma EndsOfBlock(t: Template)
    requires ProperBlock(t)
    ensures var last := |t.block| - |t.end|;
            last >= 0 && OccursAt(t.block, last, t.end) && forall j :: 0 <= j < last ==> !OccursAt(t.block, j, t.end)
    ensures |t.start| <= |t.block| && OccursAt(t.block, 0, t.start) && t.start != "" && t.end != ""
  {
  }

  lemma EndAfterStart(p: string, t: Template)
    requires ProperBlock(t)
    ensures var i := InsertAt(p, t);
            IndexFrom(Inserted(p, t), t.end, i) == Some(i + |t.block| - |t.end|)
  {
    InsertedParts(p, t);
    EndsOfBlock(t);
    hide *;
    FirstEndFrom(p[..InsertAt(p, t)], t.block, GAP + p[InsertAt(p, t)..], t.end);
  }

  /** Looking from the block on, the first end marker of the whole text is the block's own. */
  lemma FirstEndFrom(before: string, block: string, tail: string, e: string)
    requires |e| <= |block| && OccursAt(block, |block| - |e|, e)
    requires forall j :: 0 <= j < |block| - |e| ==> !OccursAt(block, j, e)
    ensures IndexFrom(before + (block + tail), e, |before|) == Some(|before| + |block| - |e|)
  {
    hide OccursAt, IndexFrom;
    var q := before + (block + tail);
    var last := |before| + |block| - |e|;
    OccursInBlock(before, block, tail, last, e);
    forall j | |before| <= j < last
      ensures !OccursAt(q, j, e)
    {
      OccursInBlock(before, block, tail, j, e);
    }
    FirstFrom(q, e, |before|, last);
  }

  lemma FirstFrom(q: string, s: string, k: nat, i: nat)
    requires k <= i && OccursAt(q, i, s) && forall j :: k <= j < i ==> !OccursAt(q, j, s)
    ensures IndexFrom(q, s, k) == Some(i)
  {
  }

  /** What disabling removes from an enabled prompt when the first start marker is at f. */
  lemma FirstRemoval(p: string, t: Template, f: nat)
    requires ProperBlock(t) && f <= InsertAt(p, t)
    requires IndexFrom(Inserted(p, t), t.start, 0) == Some(f)
    requires IndexFrom(Inserted(p, t), t.end, f) == Some(InsertAt(p, t) + |t.block| - |t.end|)
    ensures HasGuard(Inserted(p, t), t) && RemoveFirst(Inserted(p, t), t) == p[..f] + p[InsertAt(p, t)..]
  {
    var i, q := InsertAt(p, t), Inserted(p, t);
    hide IndexFrom, InsertAt, ProperBlock;
    assert q[i + |t.block|..] == GAP + p[i..];
    assert q[i + |t.block| + 2..] == p[i..];
    assert q[i + |t.block|..i + |t.block| + 2] == GAP;
    assert q[..f] == p[..f];
  }

  lemma UnmarkedFacts(p: string, t: Template)
    requires Unmarked(p, t)
    ensures !HasGuard(p, t) && Enabled(p, t) == Some(Inserted(p, t))
  {
    hide IndexFrom, Inserted;
  }

  /** Disabling an enabled prompt gives the prompt back, for every prompt without markers that does
      not complete a border of the start marker just before the insertion. */
  lemma RoundTrip(p: string, t: Template)
    requires ProperBlock(t) && Unmarked(p, t) && !Straddles(p[..InsertAt(p, t)], t.start)
    ensures Enabled(p, t) == Some(Inserted(p, t)) && Disabled(Inserted(p, t), t) == p
  {
    hide *;
    var i := InsertAt(p, t);
    EndsOfBlock(t);
    StartOfInserted(p, t);
    EndAfterStart(p, t);
    UnmarkedFacts(p, t);
    FirstRemoval(p, t, i);
    assert p[..i] + p[i..] == p;
    DisabledOnce(Inserted(p, t), p, t);
  }

  lemma DisabledOnce(q: string, p: string, t: Template)
    requires t.end != "" && HasGuard(q, t) && RemoveFirst(q, t) == p && !HasGuard(p, t)
    ensures Disabled(q, t) == p
  {
    hide HasGuard, RemoveFirst;
  }

  lemma StartOfInserted(p: string, t: Template)
    requires ProperBlock(t) && Unmarked(p, t)
    ensures var i := InsertAt(p, t);
            var f := IndexFrom(Inserted(p, t), t.start, 0);
            f.Some? && f.value <= i && (f.value == i <==> !Straddles(p[..i], t.start))
  {
    var i := InsertAt(p, t);
    var tail := GAP + p[i..];
    var rest := t.block[|t.start|..];
    InsertedParts(p, t);
    assert t.block == t.start + rest;
    hide IndexFrom, InsertAt, Straddles, Inserted;
    assert (t.start + rest) + tail == t.start + (rest + tail);
    FirstOfInsertion(p, i, t.start, rest + tail);
  }

  /** With a borderless start marker the round trip works for every prompt without markers. */
  lemma BorderlessRoundTrip(p: string, t: Template)
    requires ProperBlock(t) && Unmarked(p, t) && Borderless(t.start)
    ensures Enabled(p, t) == Some(Inserted(p, t)) && Disabled(Inserted(p, t), t) == p
  {
    RoundTrip(p, t);
  }

  lemma NoEndBefore(p: string, t: Template, i: nat, tail: string, j: nat)
    requires ProperBlock(t) && !Includes(p, t.end) && EndStaysOut(t) && j < i <= |p|
    ensures !OccursAt(p[..i] + (t.block + tail), j, t.end)
  {
    assert !OccursAt(p, j, t.end);
    hide IndexFrom, Includes, OccursAt;
    if OccursAt(p[..i] + (t.block + tail), j, t.end) {
      if j + |t.end| <= i {
        OccursInPrefix(p, i, t.block + tail, j, t.end);
      } else {
        ReachesIn(p[..i], t.block, tail, t.end, j);
      }
    }
  }

  lemma NoEarlyEnd(p: string, t: Template, f: nat)
    requires ProperBlock(t) && Unmarked(p, t) && EndStaysOut(t) && f <= InsertAt(p, t)
    ensures IndexFrom(Inserted(p, t), t.end, f) == Some(InsertAt(p, t) + |t.block| - |t.end|)
  {
    var i := InsertAt(p, t);
    EndAfterStart(p, t);
    InsertedParts(p, t);
    forall j | f <= j < i
      ensures !OccursAt(Inserted(p, t), j, t.end)
    {
      hide *;
      NoEndBefore(p, t, i, GAP + p[i..], j);
    }
    hide *;
    NoneEarlier(Inserted(p, t), t.end, f, i);
  }

  lemma NoneEarlier(q: string, e: string, f: nat, i: nat)
    requires f <= i && IndexFrom(q, e, i).Some? && forall j :: f <= j < i ==> !OccursAt(q, j, e)
    ensures IndexFrom(q, e, f) == IndexFrom(q, e, i)
  {
    FirstFrom(q, e, f, IndexFrom(q, e, i).value);
  }

  /** An occurrence that starts before the seam and does not end before it makes a suffix of e a
      prefix of the block, or lies over the whole block. */
  lemma ReachesIn(before: string, block: string, tail: string, e: string, j: nat)
    requires j < |before| < j + |e| && |e| <= |block| && OccursAt(before + (block + tail), j, e)
    ensures var k := j + |e| - |before|;
            0 < k < |e| && k <= |block| && e[|e| - k..] == block[..k]
  {
    var k := j + |e| - |before|;
    var whole := before + (block + tail);
    assert whole[j..j + |e|] == e;
    assert e[|e| - k..] == whole[|before|..|before| + k] == block[..k];
  }

  /** Exactly when the round trip works: the text before the insertion must not complete a border of
      the start marker. */
  lemma RoundTripIff(p: string, t: Template)
    requires ProperBlock(t) && Unmarked(p, t) && EndStaysOut(t)
    ensures Disabled(Inserted(p, t), t) == p <==> !Straddles(p[..InsertAt(p, t)], t.start)
  {
    var i, q := InsertAt(p, t), Inserted(p, t);
    if Straddles(p[..i], t.start) {
      StartOfInserted(p, t);
      var f := IndexFrom(q, t.start, 0).value;
      NoEarlyEnd(p, t, f);
      FirstRemoval(p, t, f);
      DisabledShrinks(RemoveFirst(q, t), t);
      hide IndexFrom, InsertAt, Straddles, HasGuard, RemoveFirst, Inserted;
      assert |p[..f] + p[i..]| < |p|;
    } else {
      RoundTrip(p, t);
    }
  }

  /** Enabling twice is enabling once, on every prompt. */
  lemma EnableIsIdempotent(p: string, t: Template)
    requires ProperBlock(t) && Enabled(p, t).Some?
    ensures HasGuard(Enabled(p, t).value, t) && Enabled(Enabled(p, t).value, t) == Enabled(p, t)
  {
    if !HasGuard(p, t) {
      assert Unmarked(p, t);
      StartOfInserted(p, t);
      EndAfterStart(p, t);
      var i, q := InsertAt(p, t), Inserted(p, t);
      EndStillFound(q, t.end, IndexFrom(q, t.start, 0).value, i);
      hide IndexFrom, InsertAt, Inserted, ProperBlock, Includes;
      assert HasGuard(q, t);
    }
  }

  lemma EndStillFound(q: string, e: string, f: nat, i: nat)
    requires f <= i && IndexFrom(q, e, i).Some?
    ensures IndexFrom(q, e, f).Some?
  {
    var g := IndexFrom(q, e, i).value;
    assert OccursAt(q, g, e);
  }

  // ---------------------------------------------------------------- refreshing an old block

  /** strings.Count for a non-empty t: occurrences that do not overlap, from k on. */
  function CountFrom(s: string, t: string, k: nat): nat
    requires t != ""
    decreases |s| - k
  {
    var f := IndexFrom(s, t, k);
    if f == None then 0 else 1 + CountFrom(s, t, f.value + |t|)
  }

  function UnixLines(s: string): string {
    if s == "" then ""
    else if |s| >= 2 && s[0] == '\r' && s[1] == '\n' then "\n" + UnixLines(s[2..])
    else [s[0]] + UnixLines(s[1..])
  }

  /** Line endings aside the block is the older release's. */
  predicate IsLegacy(block: string, legacy: string) {
    UnixLines(block) == legacy
  }

  /** The unchanged block of the older release is replaced; digests are injective, so it is compared
      with the older block itself. */
  function Refreshed(p: string, t: Template, legacy: string): string
    requires t.start != "" && t.end != ""
  {
    if CountFrom(p, t.start, 0) != 1 || CountFrom(p, t.end, 0) != 1 then p
    else
      var start, at := IndexFrom(p, t.start, 0).value, IndexFrom(p, t.end, 0).value;
      if at < start || !IsLegacy(p[start..at + |t.end|], legacy) then p
      else p[..start] + t.block + p[at + |t.end|..]
  }

  /** Refreshing never turns the guard on or off. */
  lemma RefreshKeepsState(p: string, t: Template, legacy: string)
    requires ProperBlock(t)
    ensures HasGuard(Refreshed(p, t, legacy), t) <==> HasGuard(p, t)
  {
    var q := Refreshed(p, t, legacy);
    if q != p {
      var start, at := IndexFrom(p, t.start, 0).value, IndexFrom(p, t.end, 0).value;
      var before, rest := p[..start], p[at + |t.end|..];
      assert HasGuard(p, t) by {
        EndStillFound(p, t.end, start, at);
      }
      assert q == before + (t.block + rest);
      EndsOfBlock(t);
      BlockIsGuard(before, rest, t);
    }
  }

  lemma BothFound(q: string, t: Template)
    requires IndexFrom(q, t.start, 0).Some? && IndexFrom(q, t.end, IndexFrom(q, t.start, 0).value).Some?
    ensures HasGuard(q, t)
  {
    hide IndexFrom;
  }

  /** Any text with the block in it has a guard. */
  lemma BlockIsGuard(before: string, rest: string, t: Template)
    requires ProperBlock(t)
    ensures HasGuard(before + (t.block + rest), t)
  {
    hide *;
    var q := before + (t.block + rest);
    EndsOfBlock(t);
    OccursInBlock(before, t.block, rest, |before|, t.start);
    FirstIsLeast(q, t.start, |before|);
    FirstEndFrom(before, t.block, rest, t.end);
    EndStillFound(q, t.end, IndexFrom(q, t.start, 0).value, |before|);
    BothFound(q, t);
  }

  /** Text that both continue with the marker reads the same up to the marker's end. */
  lemma SameUpToMarker(before: string, x: string, y: string, s: string, f: nat)
    requires f <= |before| && f + |s| <= |before| + |s|
    requires OccursAt(x, 0, s) && OccursAt(y, 0, s) && OccursAt(before + x, f, s)
    ensures OccursAt(before + y, f, s)
  {
    var p, q := before + x, before + y;
    forall j | f <= j < f + |s|
      ensures q[j] == p[j]
    {
      if j >= |before| {
        assert x[..|s|][j - |before|] == y[..|s|][j - |before|];
      }
    }
    assert q[f..f + |s|] == p[f..f + |s|];
  }

  /** The first start marker of the refreshed text is where the old block's was. */
  lemma RefreshedStart(before: string, x: string, y: string, s: string)
    requires OccursAt(x, 0, s) && OccursAt(y, 0, s) && IndexFrom(before + x, s, 0) == Some(|before|)
    ensures IndexFrom(before + y, s, 0) == Some(|before|)
  {
    assert forall j: nat :: j < |before| ==> !OccursAt(before + x, j, s);
    hide IndexFrom;
    OccursInParts(before, y, |before|, s);
    forall j | 0 <= j < |before|
      ensures !OccursAt(before + y, j, s)
    {
      if OccursAt(before + y, j, s) {
        SameUpToMarker(before, y, x, s, j);
      }
    }
    hide OccursAt;
    FirstFrom(before + y, s, 0, |before|);
  }

  lemma SameFirst(q: string, e: string, i: nat)
    requires IndexFrom(q, e, 0).Some? && IndexFrom(q, e, 0).value >= i && IndexFrom(q, e, i).Some?
    ensures IndexFrom(q, e, 0) == IndexFrom(q, e, i)
  {
  }

  lemma IndexInBounds(p: string, s: string)
    ensures IndexFrom(p, s, 0).Some? ==> IndexFrom(p, s, 0).value + |s| <= |p|
  {
  }

  /** Seen from the block on, the block is the first complete region of the text. */
  lemma RegionIsBlock(before: string, rest: string, t: Template)
    requires ProperBlock(t)
    ensures RegionIs(before + (t.block + rest), t, |before|)
  {
    hide ProperBlock, IndexFrom, OccursAt;
    var q := before + (t.block + rest);
    EndsOfBlock(t);
    FirstEndFrom(before, t.block, rest, t.end);
    var at := IndexFrom(q, t.end, 0);
    if at.Some? && at.value >= |before| {
      SameFirst(q, t.end, |before|);
      assert q[|before|..|before| + |t.block|] == t.block;
    }
  }

  /** The region from the start marker to the first end marker, if there is one, is the shipped block. */
  predicate RegionIs(q: string, t: Template, start: nat) {
    var at := IndexFrom(q, t.end, 0);
    at.Some? && at.value >= start ==> at.value + |t.end| <= |q| && q[start..at.value + |t.end|] == t.block
  }

  lemma CurrentBlockStays(q: string, t: Template, legacy: string, start: nat)
    requires t.start != "" && t.end != "" && !IsLegacy(t.block, legacy)
    requires IndexFrom(q, t.start, 0) == Some(start) && RegionIs(q, t, start)
    ensures Refreshed(q, t, legacy) == q
  {
    IndexInBounds(q, t.end);
    hide IndexFrom, OccursAt, IsLegacy;
  }

  lemma OldBlockStart(p: string, t: Template)
    requires IndexFrom(p, t.start, 0).Some?
    ensures var start := IndexFrom(p, t.start, 0).value;
            start <= |p| && p == p[..start] + p[start..] && OccursAt(p[start..], 0, t.start)
  {
    IndexInBounds(p, t.start);
    hide *;
    var start := IndexFrom(p, t.start, 0).value;
    assert p == p[..start] + p[start..];
    OccursInParts(p[..start], p[start..], start, t.start);
  }

  lemma StartsWithMarker(t: Template, rest: string)
    requires ProperBlock(t)
    ensures OccursAt(t.block + rest, 0, t.start)
  {
    EndsOfBlock(t);
    OccursInParts(t.block, rest, 0, t.start);
  }

  /** A second start finds nothing left to refresh, so it takes no further version. */
  lemma RefreshIsIdempotent(p: string, t: Template, legacy: string)
    requires ProperBlock(t) && !IsLegacy(t.block, legacy)
    ensures Refreshed(Refreshed(p, t, legacy), t, legacy) == Refreshed(p, t, legacy)
  {
    var q := Refreshed(p, t, legacy);
    if q != p {
      var start, at := IndexFrom(p, t.start, 0).value, IndexFrom(p, t.end, 0).value;
      var before, rest := p[..start], p[at + |t.end|..];
      assert q == before + (t.block + rest);
      OldBlockStart(p, t);
      StartsWithMarker(t, rest);
      hide *;
      RefreshedStart(before, p[start..], t.block + rest, t.start);
      RegionIsBlock(before, rest, t);
      CurrentBlockStays(q, t, legacy, start);
    }
  }

  // ---------------------------------------------------------------- the shipped markers

  const OPENER := '【'
  const START_MARKER := "【AegisHook：漏洞确认后的数据获取限制：开始】"
  const END_MARKER := "【AegisHook：漏洞确认后的数据获取限制：结束】"

  /** The opening bracket is the first character and occurs nowhere else. */
  predicate OpensOnce(s: string) {
    s != "" && s[0] == OPENER && forall i :: 0 < i < |s| ==> s[i] != OPENER
  }

  lemma OpensOnceIsBorderless(s: string)
    requires OpensOnce(s)
    ensures Borderless(s)
  {
    forall k | 0 < k < |s|
      ensures !Border(s, k)
    {
      assert s[..k][0] == OPENER;
      assert s[|s| - k..][0] == s[|s| - k];
    }
  }

  lemma ShippedMarkers()
    ensures OpensOnce(START_MARKER) && OpensOnce(END_MARKER)
    ensures |START_MARKER| == |END_MARKER| && START_MARKER != END_MARKER
  {
    assert START_MARKER[24] != END_MARKER[24];
  }

  /** The shipped markers around any text without the opening bracket make a template for which
      every round trip works. */
  lemma ShippedTemplateIsFit(body: string, anchor: string)
    requires OPENER !in body
    ensures var t := Template(START_MARKER + body + END_MARKER, START_MARKER, END_MARKER, anchor);
            ProperBlock(t) && Borderless(t.start) && EndStaysOut(t)
  {
    ShippedMarkers();
    OpensOnceIsBorderless(START_MARKER);
    BracketedBlock(body, anchor, START_MARKER, END_MARKER);
  }

  lemma BracketedBlock(body: string, anchor: string, start: string, end: string)
    requires OPENER !in body && OpensOnce(start) && OpensOnce(end) && |start| == |end| && start != end
    ensures var t := Template(start + body + end, start, end, anchor);
            ProperBlock(t) && EndStaysOut(t)
  {
    var block := start + body + end;
    var last := |start| + |body|;
    assert block[last..last + |end|] == end;
    assert block[..|start|] == start;
    forall j | 0 <= j < last
      ensures !OccursAt(block, j, end)
    {
      if j > 0 {
        assert block[j] != OPENER;
        assert block[j..j + |end|][0] == block[j];
      } else {
        assert block[0..0 + |end|] == start;
      }
    }
    FirstFrom(block, end, 0, last);
    forall k | 0 < k < |end|
      ensures end[|end| - k..] != block[..k]
    {
      assert end[|end| - k..][0] != OPENER;
      assert block[..k][0] == OPENER;
    }
  }
}
