/** What the evaluation of rules means, in terms of the rules' own fields. */
module PolicyLaws {
  import opened Common
  import opened Policy

  /** An enabled rule for this tool whose expression, or whose builtin matcher, hit the call. */
  predicate Hits(r: Rule, call: Call) {
    && r.enabled && (r.tool == "" || r.tool == call.tool)
    && (r.matcher == Semantic ==> r.id in call.effects)
    && (r.matcher != Semantic ==> (r.matcher == Regex || r.matcher == Contains) && r.id in call.patterns)
  }

  /** The first difference decides; a proper prefix comes first. */
  predicate Lexicographic(a: string, b: string) {
    exists k :: 0 <= k <= |a| && FirstDifference(a, b, k)
  }

  predicate FirstDifference(a: string, b: string, k: nat) {
    && k <= |a| && k < |b| && a[..k] == b[..k]
    && (k == |a| || a[k] < b[k])
  }

  /** Higher priority first, then the smaller id. */
  predicate Outranks(a: Rule, b: Rule) {
    a.priority > b.priority || (a.priority == b.priority && Lexicographic(a.id, b.id))
  }

  lemma {:induction false} StringLessIsLexicographic(a: string, b: string)
    ensures StringLess(a, b) <==> Lexicographic(a, b)
    decreases |a|
  {
    if b == "" {
    } else if a == "" {
      assert FirstDifference(a, b, 0);
    } else if a[0] != b[0] {
      assert a[0] < b[0] ==> FirstDifference(a, b, 0);
      forall k: nat | FirstDifference(a, b, k)
        ensures a[0] < b[0]
      {
        assert k > 0 ==> a[..k][0] == b[..k][0];
      }
    } else {
      StringLessIsLexicographic(a[1..], b[1..]);
      forall k: nat | FirstDifference(a[1..], b[1..], k)
        ensures FirstDifference(a, b, k + 1)
      {
        assert a[..k + 1] == [a[0]] + a[1..][..k] && b[..k + 1] == [b[0]] + b[1..][..k];
      }
      forall k: nat | FirstDifference(a, b, k)
        ensures k > 0 && FirstDifference(a[1..], b[1..], k - 1)
      {
        assert k > 0;
        assert a[1..][..k - 1] == a[..k][1..] && b[1..][..k - 1] == b[..k][1..];
      }
    }
  }

  /** The rule that decides a call: it hits, no rejecting rule hits unless it rejects itself, and it
      outranks every other hit of its own kind. */
  predicate Decides(rules: seq<Rule>, call: Call, w: Rule) {
    && w in rules && Hits(w, call)
    && (forall q :: q in rules && Hits(q, call) && q.decision == Reject ==> w.decision == Reject)
    && (forall q :: q in rules && Hits(q, call) && q.decision == w.decision && q != w ==> Outranks(w, q))
  }

  lemma HitsIsApplies(r: Rule, call: Call)
    ensures Hits(r, call) <==> Applies(r, call)
  {
  }

  lemma BeforeByHand(a: Rule, b: Rule)
    requires !a.decision.OtherVerdict? && !b.decision.OtherVerdict? && a.id != b.id
    ensures Before(a, b) <==>
              (a.decision == Reject && b.decision == Approve) || (a.decision == b.decision && Outranks(a, b))
  {
    StringLessIsLexicographic(a.id, b.id);
  }

  lemma WinnerDecides(rules: seq<Rule>, call: Call, w: Rule)
    requires WellFormed(rules) && IsWinner(rules, call, w)
    ensures Decides(rules, call, w)
  {
    HitsIsApplies(w, call);
    forall q | q in rules && Hits(q, call) && q != w
      ensures q.decision == Reject ==> w.decision == Reject
      ensures q.decision == w.decision ==> Outranks(w, q)
    {
      HitsIsApplies(q, call);
      WellFormedMembers(rules, w, q);
      BeforeByHand(w, q);
      hide Outranks, Hits, Applies;
    }
  }

  /** At most one rule decides. */
  lemma DeciderIsUnique(rules: seq<Rule>, call: Call, v: Rule, w: Rule)
    requires WellFormed(rules) && Decides(rules, call, v) && Decides(rules, call, w)
    ensures v == w
  {
    if v != w {
      WellFormedMembers(rules, v, w);
      assert v.decision == w.decision;
      BeforeByHand(v, w);
      BeforeByHand(w, v);
      BeforeIsStrictTotal(v, w);
      hide Outranks, Hits;
    }
  }

  predicate EndsIn(s: string, t: string) {
    |t| <= |s| && s[|s| - |t|..] == t
  }

  /** The text the ruling carries: it names the rule and ends in the rule's own message. */
  predicate Names(comment: string, r: Rule) {
    EndsIn(comment, "；命中规则：" + r.id + "（" + r.name + "）" + (if r.message == "" then "" else "；" + r.message))
  }

  lemma ExplainNames(r: Rule, call: Call)
    requires Applies(r, call)
    ensures Names(Explain(r, call), r)
  {
    var what := if r.matcher.Semantic? then call.effects[r.id] else call.tool;
    var consequence :=
      if !r.matcher.Semantic? then "按配置规则裁决该调用"
      else if r.id == "A7" then "返回查询结果"
      else "可能改变目标系统状态";
    var effect := "实际操作：" + what + "；成功后的后果：" + consequence;
    var tail := "；命中规则：" + r.id + "（" + r.name + "）" + (if r.message == "" then "" else "；" + r.message);
    assert Explain(r, call) == effect + tail;
  }

  /** Evaluation in terms of the rules' fields: no ruling exactly when no rule hits, and otherwise the
      verdict, id and text of the one rule that decides. */
  lemma EvaluateByFields(rules: seq<Rule>, call: Call)
    requires WellFormed(rules)
    ensures Evaluate(rules, call) == None <==> forall q :: q in rules ==> !Hits(q, call)
    ensures Evaluate(rules, call) != None ==> exists w :: Decides(rules, call, w)
    ensures forall w :: Decides(rules, call, w) ==>
              && Evaluate(rules, call).Some? && Evaluate(rules, call).value.verdict == w.decision
              && Evaluate(rules, call).value.ruleId == w.id && Names(Evaluate(rules, call).value.comment, w)
  {
    EvaluateIsBestRule(rules, call);
    forall q | q in rules
      ensures Hits(q, call) <==> Applies(q, call)
    {
      HitsIsApplies(q, call);
    }
    hide Hits, Applies, Evaluate, Decides, WellFormed;
    if Evaluate(rules, call) != None {
      var v :| IsWinner(rules, call, v) && Evaluate(rules, call) == Some(RulingOf(v, call));
      WinnerDecides(rules, call, v);
      ExplainNames(v, call);
      forall w | Decides(rules, call, w)
        ensures w == v
      {
        DeciderIsUnique(rules, call, v, w);
      }
    } else {
      forall w
        ensures !Decides(rules, call, w)
      {
        DeciderHits(rules, call, w);
      }
    }
  }

  lemma DeciderHits(rules: seq<Rule>, call: Call, w: Rule)
    ensures Decides(rules, call, w) ==> w in rules && Hits(w, call)
  {
    hide Hits, Outranks;
  }
}
