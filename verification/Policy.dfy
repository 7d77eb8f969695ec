/** Rule ordering and evaluation: a stable in-place sort followed by the first match. */
module Policy {
  import opened Common

  datatype Verdict = Approve | Reject | OtherVerdict(text: string)
  datatype Matcher = Semantic | Regex | Contains | OtherMatcher(text: string)
  datatype Rule = Rule(
    id: string, name: string, decision: Verdict, enabled: bool, builtin: bool,
    tool: string, matcher: Matcher, priority: int, message: string)

  /** What matching found out about one call: its tool, the effect reported by each
      semantic rule that hit, and the pattern rules whose expression matched. */
  datatype Call = Call(tool: string, effects: map<string, string>, patterns: set<string>)

  datatype Ruling = Ruling(verdict: Verdict, ruleId: string, comment: string)

  predicate Matches(r: Rule, call: Call) {
    match r.matcher
    case Semantic => r.id in call.effects
    case Regex => r.id in call.patterns
    case Contains => r.id in call.patterns
    case OtherMatcher(_) => false
  }

  predicate Applies(r: Rule, call: Call) {
    r.enabled && (r.tool == "" || r.tool == call.tool) && Matches(r, call)
  }

  function Explain(r: Rule, call: Call): (comment: string)
    requires Applies(r, call)
    ensures comment != ""
  {
    var what := if r.matcher.Semantic? then call.effects[r.id] else call.tool;
    var consequence :=
      if !r.matcher.Semantic? then "按配置规则裁决该调用"
      else if r.id == "A7" then "返回查询结果"
      else "可能改变目标系统状态";
    "实际操作：" + what + "；成功后的后果：" + consequence + "；命中规则：" + r.id + "（" + r.name + "）" +
    (if r.message == "" then "" else "；" + r.message)
  }

  function RulingOf(r: Rule, call: Call): Ruling
    requires Applies(r, call)
  {
    Ruling(r.decision, r.id, Explain(r, call))
  }

  /** The comparison handed to the sort: rejections first, then priority, then id. */
  predicate Before(a: Rule, b: Rule) {
    if a.decision != b.decision then a.decision == Reject
    else if a.priority != b.priority then a.priority > b.priority
    else StringLess(a.id, b.id)
  }

  /** What SaveRule and the store's primary key guarantee about the rules in force. */
  predicate WellFormed(rules: seq<Rule>) {
    && (forall i :: 0 <= i < |rules| ==> rules[i].decision.Approve? || rules[i].decision.Reject?)
    && (forall i, j :: 0 <= i < j < |rules| ==> rules[i].id != rules[j].id)
  }

  predicate InOrder(rules: seq<Rule>) {
    forall i, j :: 0 <= i < j < |rules| ==> !Before(rules[j], rules[i])
  }

  lemma BeforeIsStrictTotal(a: Rule, b: Rule)
    requires a.id != b.id
    requires !a.decision.OtherVerdict? && !b.decision.OtherVerdict?
    ensures Before(a, b) <==> !Before(b, a)
  {
    StringLessTotal(a.id, b.id);
  }

  lemma BeforeIsTransitive(a: Rule, b: Rule, c: Rule)
    requires !a.decision.OtherVerdict? && !b.decision.OtherVerdict? && !c.decision.OtherVerdict?
    requires Before(a, b) && Before(b, c)
    ensures Before(a, c)
  {
    if a.decision == b.decision == c.decision && a.priority == b.priority == c.priority {
      StringLessTransitive(a.id, b.id, c.id);
    }
  }

  /** Insert x behind every element of s that x does not strictly precede. */
  function InsertStable(s: seq<Rule>, x: Rule): (r: seq<Rule>)
    ensures multiset(r) == multiset(s) + multiset{x}
  {
    if s != [] && Before(x, s[|s| - 1]) then
      assert s == s[..|s| - 1] + [s[|s| - 1]];
      InsertStable(s[..|s| - 1], x) + [s[|s| - 1]]
    else s + [x]
  }

  function Sorted(s: seq<Rule>): (r: seq<Rule>)
    ensures multiset(r) == multiset(s)
  {
    if s == [] then []
    else
      assert s == s[..|s| - 1] + [s[|s| - 1]];
      InsertStable(Sorted(s[..|s| - 1]), s[|s| - 1])
  }

  lemma InsertStep(s: seq<Rule>, x: Rule)
    requires s != [] && Before(x, s[|s| - 1])
    ensures InsertStable(s, x) == InsertStable(s[..|s| - 1], x) + [s[|s| - 1]]
  {
    hide Before;
  }

  lemma InsertLast(s: seq<Rule>, x: Rule)
    requires s == [] || !Before(x, s[|s| - 1])
    ensures InsertStable(s, x) == s + [x]
  {
    hide Before;
  }

  lemma SpliceLonger<T>(s: seq<T>, init: seq<T>, z: T, x: T, j: nat)
    requires j <= |init| && s == init + [z]
    ensures init[..j] + [x] + init[j..] + [z] == s[..j] + [x] + s[j..]
  {
    assert init[..j] == s[..j];
    assert init[j..] + [z] == s[j..];
  }

  /** Where the stable insertion puts x: in front of the longest suffix that x precedes. */
  lemma {:induction false} InsertStableAt(s: seq<Rule>, x: Rule, j: nat)
    requires j <= |s|
    requires forall k :: j <= k < |s| ==> Before(x, s[k])
    requires j == 0 || !Before(x, s[j - 1])
    ensures InsertStable(s, x) == s[..j] + [x] + s[j..]
    decreases |s|
  {
    hide *;
    if j < |s| {
      var init, z := s[..|s| - 1], s[|s| - 1];
      InsertStep(s, x);
      InsertStableAt(init, x, j);
      SpliceLonger(s, init, z, x, j);
    } else {
      InsertLast(s, x);
      assert s[..j] == s && s[j..] == [];
    }
  }

  lemma Spliced<T>(r: seq<T>, s: seq<T>, x: T, j: nat)
    requires j <= |s| && |r| == |s| + 1 && r[j] == x
    requires forall k :: 0 <= k < j ==> r[k] == s[k]
    requires forall k :: j < k < |r| ==> r[k] == s[k - 1]
    ensures r == s[..j] + [x] + s[j..]
  {
    assert r[..j] == s[..j];
    assert r[j + 1..] == s[j..];
    assert r == r[..j] + [r[j]] + r[j + 1..];
  }

  /** One insertion: swap the element at i down to its place in the sorted prefix. */
  method InsertInPlace(rules: array<Rule>, i: nat)
    requires i < rules.Length
    modifies rules
    ensures rules[..i + 1] == InsertStable(old(rules[..i]), old(rules[i]))
    ensures rules[i + 1..] == old(rules[i + 1..])
  {
    hide Before, InsertStable;
    ghost var s, x, rest := rules[..i], rules[i], rules[i + 1..];
    var j := i;
    while j > 0 && Before(rules[j], rules[j - 1])
      invariant 0 <= j <= i
      invariant rules[j] == x
      invariant forall k :: 0 <= k < j ==> rules[k] == s[k]
      invariant forall k :: j < k <= i ==> rules[k] == s[k - 1]
      invariant forall k :: j <= k < i ==> Before(x, s[k])
      invariant forall k :: i < k < rules.Length ==> rules[k] == old(rules[k])
    {
      rules[j], rules[j - 1] := rules[j - 1], rules[j];
      j := j - 1;
    }
    InsertStableAt(s, x, j);
    Spliced(rules[..i + 1], s, x, j);
    assert rules[i + 1..] == rest;
  }

  lemma SortedNothing()
    ensures Sorted([]) == []
  {
  }

  lemma SortedStep(s: seq<Rule>, i: nat)
    requires i < |s|
    ensures Sorted(s[..i + 1]) == InsertStable(Sorted(s[..i]), s[i])
  {
    hide InsertStable;
    assert s[..i + 1][..i] == s[..i];
  }

  /** The slice is sorted in place by stable insertion. */
  method SortRules(rules: array<Rule>)
    modifies rules
    ensures rules[..] == Sorted(old(rules[..]))
  {
    hide Sorted, InsertStable;
    ghost var was := rules[..];
    var i := 0;
    SortedNothing();
    while i < rules.Length
      invariant 0 <= i <= rules.Length
      invariant rules[..i] == Sorted(was[..i])
      invariant rules[i..] == was[i..]
    {
      assert rules[i] == rules[i..][0] == was[i];
      assert rules[i + 1..] == rules[i..][1..];
      SortedStep(was, i);
      InsertInPlace(rules, i);
      i := i + 1;
    }
    assert was[..i] == was && rules[..i] == rules[..];
  }

  function FirstMatch(rules: seq<Rule>, call: Call): Option<Ruling> {
    if rules == [] then None
    else if Applies(rules[0], call) then Some(RulingOf(rules[0], call))
    else FirstMatch(rules[1..], call)
  }

  function Evaluate(rules: seq<Rule>, call: Call): Option<Ruling> {
    FirstMatch(Sorted(rules), call)
  }

  method EvaluatePaths(rules: seq<Rule>, call: Call) returns (d: Option<Ruling>)
    ensures d == Evaluate(rules, call)
  {
    var ordered := new Rule[|rules|](i requires 0 <= i < |rules| => rules[i]);
    assert ordered[..] == rules;
    SortRules(ordered);
    var k := 0;
    while k < ordered.Length
      invariant 0 <= k <= ordered.Length
      invariant ordered[..] == Sorted(rules)
      invariant FirstMatch(ordered[k..], call) == Evaluate(rules, call)
    {
      var r := ordered[k];
      assert ordered[k..][1..] == ordered[k + 1..];
      if Applies(r, call) {
        return Some(RulingOf(r, call));
      }
      k := k + 1;
    }
    return None;
  }

  /** The declarative reading: the applying rule that precedes every other applying rule. */
  predicate IsWinner(rules: seq<Rule>, call: Call, w: Rule) {
    && w in rules && Applies(w, call)
    && forall q :: q in rules && Applies(q, call) && q != w ==> Before(w, q)
  }

  lemma WellFormedMembers(rules: seq<Rule>, a: Rule, b: Rule)
    requires WellFormed(rules) && a in rules && b in rules && a != b
    ensures a.id != b.id && !a.decision.OtherVerdict? && !b.decision.OtherVerdict?
  {
  }

  /** Distinct ids survive any reordering of the slice. */
  lemma WellFormedPermutes(a: seq<Rule>, b: seq<Rule>)
    requires WellFormed(a) && multiset(a) == multiset(b)
    ensures WellFormed(b)
  {
    forall i | 0 <= i < |b|
      ensures !b[i].decision.OtherVerdict?
    {
      assert b[i] in multiset(a);
    }
    forall i, j | 0 <= i < j < |b|
      ensures b[i].id != b[j].id
    {
      assert b[i] in multiset(a) && b[j] in multiset(a);
      if b[i] == b[j] {
        TwiceCounts(b, i, j);
        OnceCounts(a, b[i]);
      }
    }
  }

  lemma TwiceCounts<T>(s: seq<T>, i: nat, j: nat)
    requires i < j < |s| && s[i] == s[j]
    ensures multiset(s)[s[i]] >= 2
  {
    assert s == s[..i] + [s[i]] + s[i + 1..j] + [s[j]] + s[j + 1..];
  }

  lemma {:induction false} OnceCounts(s: seq<Rule>, x: Rule)
    requires WellFormed(s)
    ensures multiset(s)[x] <= 1
  {
    if x in s {
      var k :| 0 <= k < |s| && s[k] == x;
      assert s == s[..k] + [x] + s[k + 1..];
      assert x !in s[..k] && x !in s[k + 1..];
    }
  }

  lemma {:induction false} InsertKeepsOrder(s: seq<Rule>, x: Rule)
    requires InOrder(s) && WellFormed(s + [x])
    ensures InOrder(InsertStable(s, x))
    decreases |s|
  {
    hide Before;
    if s != [] && Before(x, s[|s| - 1]) {
      var init, z := s[..|s| - 1], s[|s| - 1];
      assert WellFormed(init + [x]) by {
        assert forall i :: 0 <= i < |init| ==> (s + [x])[i] == init[i];
        assert (s + [x])[|s|] == x;
      }
      InsertKeepsOrder(init, x);
      var r := InsertStable(init, x);
      forall i | 0 <= i < |r|
        ensures !Before(z, r[i])
      {
        assert r[i] in multiset(r);
        if r[i] == x {
          assert (s + [x])[|s| - 1] == z && (s + [x])[|s|] == x;
          BeforeIsStrictTotal(x, z);
        } else {
          assert r[i] in init;
        }
      }
    } else if s != [] {
      forall i | 0 <= i < |s|
        ensures !Before(x, s[i])
      {
        var z := s[|s| - 1];
        assert (s + [x])[i] == s[i] && (s + [x])[|s| - 1] == z && (s + [x])[|s|] == x;
        if i < |s| - 1 && Before(x, s[i]) {
          BeforeIsStrictTotal(s[i], z);
          BeforeIsTransitive(x, s[i], z);
        }
      }
    }
  }

  lemma {:induction false} SortedIsInOrder(s: seq<Rule>)
    requires WellFormed(s)
    ensures InOrder(Sorted(s)) && WellFormed(Sorted(s))
    decreases |s|
  {
    if s != [] {
      var init, x := s[..|s| - 1], s[|s| - 1];
      SortedIsInOrder(init);
      assert s == init + [x];
      assert multiset(Sorted(init) + [x]) == multiset(s);
      WellFormedPermutes(s, Sorted(init) + [x]);
      InsertKeepsOrder(Sorted(init), x);
    }
    WellFormedPermutes(s, Sorted(s));
  }

  lemma {:induction false} FirstMatchIsWinner(s: seq<Rule>, call: Call)
    requires InOrder(s) && WellFormed(s)
    ensures FirstMatch(s, call) == None <==> forall q :: q in s ==> !Applies(q, call)
    ensures forall w :: IsWinner(s, call, w) ==> FirstMatch(s, call) == Some(RulingOf(w, call))
    ensures FirstMatch(s, call) != None ==>
              exists w :: IsWinner(s, call, w) && FirstMatch(s, call) == Some(RulingOf(w, call))
    decreases |s|
  {
    if s != [] {
      var rest := s[1..];
      assert s == [s[0]] + rest;
      if Applies(s[0], call) {
        forall q | q in s && q != s[0]
          ensures Before(s[0], q)
        {
          var k :| 0 < k < |s| && s[k] == q;
          BeforeIsStrictTotal(s[0], q);
        }
        assert IsWinner(s, call, s[0]);
        forall w | IsWinner(s, call, w)
          ensures w == s[0]
        {
          if w != s[0] {
            WellFormedMembers(s, w, s[0]);
            BeforeIsStrictTotal(w, s[0]);
          }
        }
      } else {
        FirstMatchIsWinner(rest, call);
        assert forall q :: q in s && Applies(q, call) <==> q in rest && Applies(q, call);
        assert forall w :: IsWinner(s, call, w) <==> IsWinner(rest, call, w);
      }
    }
  }

  /** Sort-then-first-match returns the ruling of the declarative winner, and nothing iff nothing applies. */
  lemma EvaluateIsBestRule(rules: seq<Rule>, call: Call)
    requires WellFormed(rules)
    ensures Evaluate(rules, call) == None <==> forall q :: q in rules ==> !Applies(q, call)
    ensures forall w :: IsWinner(rules, call, w) ==> Evaluate(rules, call) == Some(RulingOf(w, call))
    ensures Evaluate(rules, call) != None ==>
              exists w :: IsWinner(rules, call, w) && Evaluate(rules, call) == Some(RulingOf(w, call))
  {
    var s := Sorted(rules);
    SortedIsInOrder(rules);
    FirstMatchIsWinner(s, call);
    SameMembers(rules, s);
    assert forall w :: IsWinner(rules, call, w) <==> IsWinner(s, call, w);
  }

  lemma SameMembers<T>(a: seq<T>, b: seq<T>)
    requires multiset(a) == multiset(b)
    ensures forall x :: x in a <==> x in b
  {
    assert forall x :: x in a <==> x in multiset(a);
    assert forall x :: x in b <==> x in multiset(b);
  }

  /** Only the set of rules matters, not the order the store lists them in. */
  lemma EvaluateIgnoresOrder(a: seq<Rule>, b: seq<Rule>, call: Call)
    requires WellFormed(a) && multiset(a) == multiset(b)
    ensures Evaluate(a, call) == Evaluate(b, call)
  {
    WellFormedPermutes(a, b);
    EvaluateIsBestRule(a, call);
    EvaluateIsBestRule(b, call);
    SameMembers(a, b);
    if Evaluate(a, call) != None {
      var w :| IsWinner(a, call, w) && Evaluate(a, call) == Some(RulingOf(w, call));
      assert IsWinner(b, call, w);
    }
  }

  /** Taking any rule other than the winner away does not change the decision. */
  lemma LosersDoNotMatter(rules: seq<Rule>, k: nat, call: Call)
    requires WellFormed(rules) && k < |rules|
    requires !IsWinner(rules, call, rules[k])
    ensures Evaluate(rules[..k] + rules[k + 1..], call) == Evaluate(rules, call)
  {
    var fewer := rules[..k] + rules[k + 1..];
    assert forall i :: 0 <= i < |fewer| ==> fewer[i] == rules[if i < k then i else i + 1];
    assert forall q :: q in rules <==> q in fewer || q == rules[k] by {
      assert rules == rules[..k] + [rules[k]] + rules[k + 1..];
    }
    EvaluateIsBestRule(rules, call);
    EvaluateIsBestRule(fewer, call);
    if Evaluate(rules, call) != None {
      var w :| IsWinner(rules, call, w) && Evaluate(rules, call) == Some(RulingOf(w, call));
      assert IsWinner(fewer, call, w);
    }
  }

  /** An approval by rule means no enabled rejecting rule matched the call. */
  lemma ApprovalMeansNoRejection(rules: seq<Rule>, call: Call, q: Rule)
    requires WellFormed(rules)
    requires Evaluate(rules, call).Some? && Evaluate(rules, call).value.verdict == Approve
    requires q in rules && Applies(q, call)
    ensures q.decision == Approve
  {
    EvaluateIsBestRule(rules, call);
    var w :| IsWinner(rules, call, w) && Evaluate(rules, call) == Some(RulingOf(w, call));
    if q.decision == Reject {
      assert Before(w, q);
      assert false;
    }
  }

  /** `rules` lists exactly the values of the rule table, in evaluation order. */
  ghost predicate IsListing(rules: seq<Rule>, table: map<string, Rule>) {
    && InOrder(rules) && WellFormed(rules)
    && forall r :: r in rules <==> r.id in table && table[r.id] == r
  }

  lemma NonEmptyHasMember<T>(s: seq<T>)
    ensures s != [] ==> exists x :: x in s
  {
    if s != [] {
      assert s[0] in s;
    }
  }

  /** A rule table has one listing, so a review's snapshot is determined by the table. */
  lemma {:induction false} ListingIsUnique(a: seq<Rule>, b: seq<Rule>)
    requires InOrder(a) && WellFormed(a) && InOrder(b) && WellFormed(b)
    requires forall r :: r in a <==> r in b
    ensures a == b
    decreases |a|
  {
    if a == [] {
      NonEmptyHasMember(b);
    } else {
      assert a[0] in b;
      assert b[0] in a;
      if a[0] != b[0] {
        var i :| 0 <= i < |a| && a[i] == b[0];
        var j :| 0 <= j < |b| && b[j] == a[0];
        BeforeIsStrictTotal(a[0], b[0]);
        assert false;
      }
      assert a == [a[0]] + a[1..] && b == [b[0]] + b[1..];
      forall r
        ensures r in a[1..] <==> r in b[1..]
      {
        assert r in a[1..] ==> r in a && r != a[0];
        assert r in b[1..] ==> r in b && r != b[0];
      }
      ListingIsUnique(a[1..], b[1..]);
    }
  }
}
