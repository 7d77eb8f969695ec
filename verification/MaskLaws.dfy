/** Where comments and literals begin and end, on the text itself: the masked text is the masked first
    lexeme followed by the rest, masked as a fresh input. */
module MaskLaws {
  import opened MaskCode

  // ---------------------------------------------------------------- lexemes

  /** The text t occurs at position p. */
  predicate Has(s: string, p: nat, t: string) {
    p + |t| <= |s| && s[p..p + |t|] == t
  }

  predicate Letter(c: char) {
    'A' <= c <= 'Z' || 'a' <= c <= 'z' || c == '_'
  }

  /** A dollar-quote delimiter: an empty tag, or an identifier, between two dollar signs. */
  predicate Delimiter(d: string) {
    && |d| >= 2 && d[0] == '$' && d[|d| - 1] == '$'
    && forall k :: 1 <= k < |d| - 1 ==> Letter(d[k]) || (k > 1 && '0' <= d[k] <= '9')
  }

  /** A comment to the end of the line; the line break is not part of it. */
  predicate LineComment(x: string, rest: string, sql: bool) {
    && (Has(x, 0, "#") || Has(x, 0, "//") || (sql && Has(x, 0, "--")))
    && '\n' !in x && (rest == "" || rest[0] == '\n')
  }

  /** From the opener to just past the first terminator, or to the end of input. */
  predicate BlockComment(x: string, rest: string) {
    && Has(x, 0, "/*")
    && (|| (|x| >= 4 && Has(x, |x| - 2, "*/") && forall k :: 2 <= k < |x| - 2 ==> !Has(x, k, "*/"))
        || (rest == "" && forall k :: 2 <= k < |x| ==> !Has(x, k, "*/")))
  }

  /** From a delimiter to just past its next copy, or to the end of input. */
  predicate DollarLiteral(x: string, rest: string, d: string) {
    && Delimiter(d) && Has(x, 0, d)
    && (|| (|x| >= 2 * |d| && Has(x, |x| - |d|, d) && forall k :: |d| <= k < |x| - |d| ==> !Has(x, k, d))
        || (rest == "" && forall k :: |d| <= k <= |x| ==> !Has(x, k, d)))
  }

  function Run(c: char, w: nat): string {
    seq(w, i => c)
  }

  /** The rest of a quoted text up to and including its closing quotes: escapes, in SQL doubled
      quotes, and characters at which no run of quotes begins, and then one run. */
  predicate ClosedBy(t: string, c: char, w: nat, sql: bool)
    requires w > 0
    decreases |t|
  {
    || t == Run(c, w)
    || (|t| >= 2 && t[0] == '\\' && ClosedBy(t[2..], c, w, sql))
    || (sql && |t| > 2 * w && Has(t, 0, Run(c, w)) && Has(t, w, Run(c, w)) && ClosedBy(t[2 * w..], c, w, sql))
    || (t != "" && t[0] != '\\' && !Has(t, 0, Run(c, w)) && ClosedBy(t[1..], c, w, sql))
  }

  /** The same, but the input ends first. */
  predicate NeverClosed(t: string, c: char, w: nat, sql: bool)
    requires w > 0
    decreases |t|
  {
    || t == "" || t == "\\"
    || (|t| >= 2 && t[0] == '\\' && NeverClosed(t[2..], c, w, sql))
    || (sql && |t| >= 2 * w && Has(t, 0, Run(c, w)) && Has(t, w, Run(c, w)) && NeverClosed(t[2 * w..], c, w, sql))
    || (t != "" && t[0] != '\\' && !Has(t, 0, Run(c, w)) && NeverClosed(t[1..], c, w, sql))
  }

  predicate Quotes(c: char) {
    c == '\'' || c == '"' || c == '`'
  }

  /** A quoted text with opening run of width w: three quotes outside SQL where three are there, else one. */
  predicate Quoted(x: string, rest: string, c: char, w: nat, sql: bool) {
    && Quotes(c) && (w == 1 || w == 3) && (w == 3 <==> !sql && Has(x + rest, 0, Run(c, 3)))
    && Has(x, 0, Run(c, w))
    && (|| (ClosedBy(x[w..], c, w, sql) && !(sql && Has(rest, 0, Run(c, w))))
        || (rest == "" && NeverClosed(x[w..], c, w, sql)))
  }

  /** The first character of the text begins no literal and no comment. */
  predicate Plain(s: string, sql: bool) {
    && s != "" && !Quotes(s[0]) && !Has(s, 0, "#") && !Has(s, 0, "//") && !Has(s, 0, "/*")
    && (sql ==> !Has(s, 0, "--") && forall k :: 2 <= k <= |s| ==> !Delimiter(s[..k]))
  }

  // ---------------------------------------------------------------- what is left of a lexeme

  function Blanked(x: string): string {
    seq(|x|, i requires 0 <= i < |x| => if x[i] == '\n' || x[i] == '\r' then x[i] else ' ')
  }

  /** A quoted name is not a string constant: one x stays. */
  function Named(x: string): string
    requires x != ""
  {
    "x" + Blanked(x)[1..]
  }

  // ---------------------------------------------------------------- lexing looks only ahead

  lemma {:induction false} TagEndShift(s: string, b: nat, j: nat)
    requires b + j <= |s|
    ensures TagEnd(s, b + j) == b + TagEnd(s[b..], j)
    decreases |s| - j
  {
    if b + j < |s| && IsTagChar(s[b + j]) {
      TagEndShift(s, b, j + 1);
    }
  }

  lemma DollarLenShift(s: string, b: nat, i: nat)
    requires b + i < |s|
    ensures DollarLen(s, b + i) == DollarLen(s[b..], i)
  {
    if i + 1 < |s[b..]| {
      TagEndShift(s, b, i + 1);
    }
    hide TagEnd;
  }

  lemma PrefixShift(s: string, b: nat, p: nat, t: string)
    requires b <= |s|
    ensures PrefixAt(s, b + p, t) == PrefixAt(s[b..], p, t)
  {
    if b + p + |t| <= |s| {
      assert s[b..][p..p + |t|] == s[b + p..b + p + |t|];
    }
  }

  lemma {:induction false} PastNextShift(s: string, b: nat, p: nat, t: string)
    requires b + p <= |s|
    ensures PastNext(s, b + p, t) == b + PastNext(s[b..], p, t)
    decreases |s| - p
  {
    PrefixShift(s, b, p, t);
    if b + p < |s| && !PrefixAt(s, b + p, t) {
      PastNextShift(s, b, p + 1, t);
    }
  }

  lemma {:induction false} LineEndShift(s: string, b: nat, j: nat)
    requires b + j <= |s|
    ensures LineEnd(s, b + j) == b + LineEnd(s[b..], j)
    decreases |s| - j
  {
    if b + j < |s| && s[b + j] != '\n' {
      LineEndShift(s, b, j + 1);
    }
  }

  lemma {:induction false} BlockEndShift(s: string, b: nat, j: nat)
    requires b + j <= |s|
    ensures BlockEnd(s, b + j) == b + BlockEnd(s[b..], j)
    decreases |s| - j
  {
    if b + j < |s| && !Two(s, b + j, '*', '/') {
      BlockEndShift(s, b, j + 1);
    }
  }

  lemma QuoteAtShift(s: string, b: nat, j: nat, c: char, w: nat)
    requires b + j <= |s|
    ensures QuoteAt(s, b + j, c, w) == QuoteAt(s[b..], j, c, w)
  {
    var t := s[b..];
    if QuoteAt(t, j, c, w) {
      forall k | b + j <= k < b + j + w
        ensures s[k] == c
      {
        assert t[k - b] == c;
      }
    }
  }

  /** One turn of the quote loop. */
  lemma QuoteTurn(s: string, j: nat, c: char, w: nat, sql: bool)
    requires j < |s| && w > 0
    ensures s[j] == '\\' ==>
              QuoteEnd(s, j, c, w, sql) == QuoteEnd(s, if j + 2 <= |s| then j + 2 else |s|, c, w, sql)
    ensures s[j] != '\\' && !QuoteAt(s, j, c, w) ==> QuoteEnd(s, j, c, w, sql) == QuoteEnd(s, j + 1, c, w, sql)
    ensures s[j] != '\\' && QuoteAt(s, j, c, w) && !(sql && QuoteAt(s, j + w, c, w)) ==>
              QuoteEnd(s, j, c, w, sql) == j + w
    ensures s[j] != '\\' && QuoteAt(s, j, c, w) && sql && QuoteAt(s, j + w, c, w) ==>
              j + w + w <= |s| && QuoteEnd(s, j, c, w, sql) == QuoteEnd(s, j + w + w, c, w, sql)
  {
    QuoteFits(s, j, c, w);
    QuoteFits(s, j + w, c, w);
    hide QuoteAt;
  }

  lemma QuoteFits(s: string, j: nat, c: char, w: nat)
    ensures QuoteAt(s, j, c, w) ==> j + w <= |s|
  {
  }

  lemma QuoteEndAtEnd(s: string, c: char, w: nat, sql: bool)
    requires w > 0
    ensures QuoteEnd(s, |s|, c, w, sql) == |s|
  {
  }

  lemma {:induction false} QuoteEndShift(s: string, b: nat, j: nat, c: char, w: nat, sql: bool)
    requires b + j <= |s| && w > 0
    ensures QuoteEnd(s, b + j, c, w, sql) == b + QuoteEnd(s[b..], j, c, w, sql)
    decreases |s| - j
  {
    hide QuoteEnd, QuoteAt;
    var r := s[b..];
    if b + j == |s| {
      QuoteEndAtEnd(s, c, w, sql);
      QuoteEndAtEnd(r, c, w, sql);
    } else {
      assert r[j] == s[b + j];
      QuoteAtShift(s, b, j, c, w);
      QuoteTurn(s, b + j, c, w, sql);
      QuoteTurn(r, j, c, w, sql);
      if s[b + j] == '\\' {
        QuoteEndShift(s, b, if b + j + 2 <= |s| then j + 2 else |s| - b, c, w, sql);
      } else if !QuoteAt(s, b + j, c, w) {
        QuoteEndShift(s, b, j + 1, c, w, sql);
      } else {
        QuoteFits(s, b + j, c, w);
        QuoteAtShift(s, b, j + w, c, w);
        if sql && QuoteAt(s, b + j + w, c, w) {
          QuoteEndShift(s, b, j + w + w, c, w, sql);
        }
      }
    }
  }

  lemma OpenersShift(s: string, b: nat, i: nat, sql: bool)
    requires b + i < |s|
    ensures s[b + i] == s[b..][i]
    ensures OpensLineComment(s, b + i, sql) == OpensLineComment(s[b..], i, sql)
    ensures Two(s, b + i, '/', '*') == Two(s[b..], i, '/', '*')
  {
  }

  lemma WidthShift(s: string, b: nat, i: nat, sql: bool)
    requires b + i < |s|
    ensures QuoteWidth(s, b + i, sql) == QuoteWidth(s[b..], i, sql)
  {
    QuoteAtShift(s, b, i, s[b + i], 3);
    hide QuoteAt;
  }

  /** A token of the rest is the token of the whole text, moved. */
  lemma TokenShift(s: string, b: nat, i: nat, sql: bool)
    requires b + i < |s|
    ensures var t := TokenAt(s[b..], i, sql);
            TokenAt(s, b + i, sql) == Token(t.kind, b + t.start, b + t.end)
  {
    hide DollarLen, LineEnd, BlockEnd, PastNext, QuoteEnd, QuoteAt, QuoteWidth, OpensLineComment, Two;
    var r := s[b..];
    OpenersShift(s, b, i, sql);
    DollarLenShift(s, b, i);
    if sql && DollarLen(r, i) > 0 {
      var d := DollarLen(r, i);
      assert s[b + i..b + i + d] == r[i..i + d];
      PastNextShift(s, b, i + d, r[i..i + d]);
    } else if OpensLineComment(r, i, sql) {
      LineEndShift(s, b, i);
    } else if Two(r, i, '/', '*') {
      CommentFits(r, i);
      BlockEndShift(s, b, i + 2);
    } else if IsQuote(r[i]) {
      WidthShift(s, b, i, sql);
      QuoteEndShift(s, b, i + QuoteWidth(r, i, sql), r[i], QuoteWidth(r, i, sql), sql);
    }
  }

  lemma CommentFits(s: string, i: nat)
    requires Two(s, i, '/', '*')
    ensures i + 2 <= |s|
  {
  }

  lemma CoveringTurn(s: string, i: nat, j: nat, sql: bool)
    requires i <= j < |s|
    ensures var t := TokenAt(s, i, sql);
            Covering(s, i, j, sql) == if j < t.end then t else Covering(s, t.end, j, sql)
  {
    hide TokenAt;
  }

  lemma {:induction false} CoveringShift(s: string, b: nat, i: nat, j: nat, sql: bool)
    requires i <= j && b + j < |s|
    ensures var t := Covering(s[b..], i, j, sql);
            Covering(s, b + i, b + j, sql) == Token(t.kind, b + t.start, b + t.end)
    decreases |s| - i
  {
    hide TokenAt, Covering;
    TokenShift(s, b, i, sql);
    CoveringTurn(s, b + i, b + j, sql);
    CoveringTurn(s[b..], i, j, sql);
    var t := TokenAt(s[b..], i, sql);
    if j >= t.end {
      CoveringShift(s, b, t.end, j, sql);
    }
  }

  /** A position past the first token is covered as in the rest alone. */
  lemma CoveredInRest(x: string, rest: string, k: nat, sql: bool)
    requires x != "" && TokenAt(x + rest, 0, sql).end == |x| && k < |rest|
    ensures var t := Covering(rest, 0, k, sql);
            Covering(x + rest, 0, |x| + k, sql) == Token(t.kind, |x| + t.start, |x| + t.end)
  {
    hide TokenAt;
    assert (x + rest)[|x|..] == rest;
    CoveringShift(x + rest, |x|, 0, k, sql);
  }

  lemma CoveredFirst(s: string, k: nat, sql: bool)
    requires s != "" && k < TokenAt(s, 0, sql).end
    ensures Covering(s, 0, k, sql) == TokenAt(s, 0, sql)
  {
    hide TokenAt;
  }

  lemma ShownShift(c: char, b: nat, j: nat, t: Token)
    ensures Shown(c, b + j, Token(t.kind, b + t.start, b + t.end)) == Shown(c, j, t)
  {
  }

  lemma MaskedInRest(x: string, rest: string, k: nat, sql: bool)
    requires x != "" && TokenAt(x + rest, 0, sql).end == |x| && k < |rest|
    ensures Masked(x + rest, sql)[|x| + k] == Masked(rest, sql)[k]
  {
    hide *;
    CoveredInRest(x, rest, k, sql);
    MaskedAt(x + rest, sql, |x| + k);
    MaskedAt(rest, sql, k);
    assert (x + rest)[|x| + k] == rest[k];
    ShownShift(rest[k], |x|, k, Covering(rest, 0, k, sql));
  }

  lemma MaskedInFirst(x: string, rest: string, k: nat, sql: bool)
    requires x != "" && TokenAt(x + rest, 0, sql).end == |x| && k < |x|
    ensures Masked(x + rest, sql)[k] == Shown(x[k], k, TokenAt(x + rest, 0, sql))
  {
    hide *;
    CoveredFirst(x + rest, k, sql);
    MaskedAt(x + rest, sql, k);
    assert (x + rest)[k] == x[k];
  }

  function Left(x: string, t: Token): string {
    seq(|x|, i requires 0 <= i < |x| => Shown(x[i], i, t))
  }

  /** What the first token leaves, and the rest masked on its own. */
  lemma FirstToken(x: string, rest: string, sql: bool)
    requires x != "" && TokenAt(x + rest, 0, sql).end == |x|
    ensures Masked(x + rest, sql) == Left(x, TokenAt(x + rest, 0, sql)) + Masked(rest, sql)
  {
    hide TokenAt, Masked, Shown;
    var whole, left, after := Masked(x + rest, sql), Left(x, TokenAt(x + rest, 0, sql)), Masked(rest, sql);
    forall k | 0 <= k < |whole|
      ensures whole[k] == (left + after)[k]
    {
      if k < |x| {
        MaskedInFirst(x, rest, k, sql);
      } else {
        MaskedInRest(x, rest, k - |x|, sql);
      }
    }
  }

  // ---------------------------------------------------------------- where the scanning functions stop

  lemma {:induction false} LineEndIs(s: string, j: nat, e: nat)
    requires j <= e <= |s| && (forall k :: j <= k < e ==> s[k] != '\n') && (e == |s| || s[e] == '\n')
    ensures LineEnd(s, j) == e
    decreases e - j
  {
    if j < e {
      LineEndIs(s, j + 1, e);
    }
  }

  lemma {:induction false} BlockEndIs(s: string, j: nat, e: nat)
    requires j <= e <= |s| && forall k :: j <= k < e ==> !Two(s, k, '*', '/')
    requires e == |s| || Two(s, e, '*', '/')
    ensures BlockEnd(s, j) == if e == |s| then e else e + 2
    decreases e - j
  {
    if j < e {
      BlockEndIs(s, j + 1, e);
    }
  }

  lemma {:induction false} PastNextIs(s: string, p: nat, t: string, e: nat)
    requires p <= e <= |s| && forall k :: p <= k < e ==> !PrefixAt(s, k, t)
    requires e == |s| || PrefixAt(s, e, t)
    ensures PastNext(s, p, t) == if PrefixAt(s, e, t) then e + |t| else e
    decreases e - p
  {
    if p < e {
      PastNextIs(s, p + 1, t, e);
    }
  }

  lemma HasRun(s: string, p: nat, c: char, w: nat)
    requires p <= |s|
    ensures Has(s, p, Run(c, w)) <==> QuoteAt(s, p, c, w)
  {
    if Has(s, p, Run(c, w)) {
      forall k | p <= k < p + w
        ensures s[k] == c
      {
        assert s[p..p + w][k - p] == c;
      }
    }
    if QuoteAt(s, p, c, w) {
      assert s[p..p + w] == Run(c, w);
    }
  }

  /** Inside a text, a run at the start of a slice is a run of the text, if it fits the slice. */
  lemma HasInSlice(s: string, j: nat, e: nat, p: nat, t: string)
    requires j <= e <= |s| && j + p + |t| <= e
    ensures Has(s[j..e], p, t) <==> Has(s, j + p, t)
  {
    var a, b := s[j..e][p..p + |t|], s[j + p..j + p + |t|];
    forall k | 0 <= k < |t|
      ensures a[k] == b[k]
    {
      assert a[k] == s[j..e][p + k] == s[j + (p + k)];
    }
    assert a == b;
  }

  /** The same in terms of runs. */
  lemma RunTurn(s: string, j: nat, c: char, w: nat, sql: bool)
    requires j < |s| && w > 0
    ensures s[j] == '\\' ==>
              QuoteEnd(s, j, c, w, sql) == QuoteEnd(s, if j + 2 <= |s| then j + 2 else |s|, c, w, sql)
    ensures s[j] != '\\' && !Has(s, j, Run(c, w)) ==> QuoteEnd(s, j, c, w, sql) == QuoteEnd(s, j + 1, c, w, sql)
    ensures s[j] != '\\' && Has(s, j, Run(c, w)) && !(sql && Has(s, j + w, Run(c, w))) ==>
              QuoteEnd(s, j, c, w, sql) == j + w
    ensures s[j] != '\\' && Has(s, j, Run(c, w)) && sql && Has(s, j + w, Run(c, w)) ==>
              j + w + w <= |s| && QuoteEnd(s, j, c, w, sql) == QuoteEnd(s, j + w + w, c, w, sql)
  {
    hide QuoteEnd, QuoteAt;
    HasRun(s, j, c, w);
    QuoteFits(s, j, c, w);
    if j + w <= |s| {
      HasRun(s, j + w, c, w);
    }
    QuoteTurn(s, j, c, w, sql);
  }

  lemma RunStart(s: string, j: nat, c: char, w: nat)
    requires w > 0 && Has(s, j, Run(c, w))
    ensures j + w <= |s| && s[j] == c
  {
    assert s[j..j + w][0] == Run(c, w)[0];
  }

  lemma SliceStart(s: string, j: nat, e: nat)
    requires j < e <= |s|
    ensures s[j..e][0] == s[j] && s[j..e][1..] == s[j + 1..e]
    ensures j + 2 <= e ==> s[j..e][2..] == s[j + 2..e]
  {
  }

  /** The grammar of closed quoted texts ends where the quote loop stops. */
  lemma {:induction false} QuoteEndIs(s: string, j: nat, e: nat, c: char, w: nat, sql: bool)
    requires w > 0 && c != '\\' && j <= e <= |s| && ClosedBy(s[j..e], c, w, sql)
    requires sql ==> !Has(s, e, Run(c, w))
    ensures QuoteEnd(s, j, c, w, sql) == e
    decreases e - j
  {
    hide QuoteEnd, Run, Has;
    var t := s[j..e];
    ClosedIsLong(t, c, w, sql);
    SliceStart(s, j, e);
    RunTurn(s, j, c, w, sql);
    HasInSlice(s, j, e, 0, Run(c, w));
    if t == Run(c, w) {
      WholeRun(t, c, w);
      RunStart(s, j, c, w);
    } else if |t| >= 2 && t[0] == '\\' && ClosedBy(t[2..], c, w, sql) {
      QuoteEndIs(s, j + 2, e, c, w, sql);
    } else if sql && |t| > 2 * w && Has(t, 0, Run(c, w)) && Has(t, w, Run(c, w)) && ClosedBy(t[2 * w..], c, w, sql) {
      HasInSlice(s, j, e, w, Run(c, w));
      RunStart(s, j, c, w);
      assert t[2 * w..] == s[j + w + w..e];
      QuoteEndIs(s, j + w + w, e, c, w, sql);
    } else {
      QuoteEndIs(s, j + 1, e, c, w, sql);
    }
  }

  lemma WholeRun(t: string, c: char, w: nat)
    requires t == Run(c, w)
    ensures Has(t, 0, Run(c, w)) && |t| == w
  {
    assert t[0..w] == t;
  }

  lemma {:induction false} ClosedIsLong(t: string, c: char, w: nat, sql: bool)
    requires w > 0 && ClosedBy(t, c, w, sql)
    ensures |t| >= w && |Run(c, w)| == w
    decreases |t|
  {
    if t != Run(c, w) {
      if |t| >= 2 && t[0] == '\\' && ClosedBy(t[2..], c, w, sql) {
        ClosedIsLong(t[2..], c, w, sql);
      } else if !(sql && |t| > 2 * w) && t != "" && ClosedBy(t[1..], c, w, sql) {
        ClosedIsLong(t[1..], c, w, sql);
      }
    }
  }

  lemma TailStart(s: string, j: nat)
    requires j < |s|
    ensures s[j..][0] == s[j] && s[j..][1..] == s[j + 1..] && s[j..|s|] == s[j..]
    ensures j + 2 <= |s| ==> s[j..][2..] == s[j + 2..]
  {
  }

  lemma TailHasRun(s: string, j: nat, p: nat, t: string)
    requires j <= |s|
    ensures Has(s[j..], p, t) <==> Has(s, j + p, t)
  {
    if j + p + |t| <= |s| {
      assert s[j..][p..p + |t|] == s[j + p..j + p + |t|];
    }
  }

  lemma {:induction false} QuoteNeverEnds(s: string, j: nat, c: char, w: nat, sql: bool)
    requires w > 0 && c != '\\' && j <= |s| && NeverClosed(s[j..], c, w, sql)
    ensures QuoteEnd(s, j, c, w, sql) == |s|
    decreases |s| - j
  {
    hide QuoteEnd, Run, Has;
    var t := s[j..];
    QuoteEndAtEnd(s, c, w, sql);
    if t != "" {
      TailStart(s, j);
      RunTurn(s, j, c, w, sql);
      TailHasRun(s, j, 0, Run(c, w));
      TailHasRun(s, j, w, Run(c, w));
      if t == "\\" {
      } else if |t| >= 2 && t[0] == '\\' && NeverClosed(t[2..], c, w, sql) {
        QuoteNeverEnds(s, j + 2, c, w, sql);
      } else if sql && |t| >= 2 * w && Has(t, 0, Run(c, w)) && Has(t, w, Run(c, w))
                && NeverClosed(t[2 * w..], c, w, sql) {
        RunStart(s, j, c, w);
        assert t[2 * w..] == s[j + w + w..];
        QuoteNeverEnds(s, j + w + w, c, w, sql);
      } else {
        QuoteNeverEnds(s, j + 1, c, w, sql);
      }
    }
  }

  // ---------------------------------------------------------------- the laws

  lemma CodeLeft(x: string, t: Token)
    requires t.kind == Code
    ensures Left(x, t) == x
  {
  }

  lemma BlankLeft(x: string, t: Token)
    requires t.kind == Comment || t.kind == Literal
    ensures Left(x, t) == Blanked(x)
  {
  }

  lemma NameLeft(x: string, t: Token)
    requires t.kind == QuotedName && t.start == 0 && x != ""
    ensures Left(x, t) == Named(x)
  {
  }

  /** Nothing stays nothing. */
  lemma EmptyLaw(sql: bool)
    ensures Masked("", sql) == ""
  {
  }

  lemma HasTwo(s: string, p: nat, a: char, b: char)
    ensures Has(s, p, [a, b]) <==> Two(s, p, a, b)
  {
    if p + 2 <= |s| {
      assert s[p..p + 2] == [s[p], s[p + 1]];
    }
  }

  lemma NoDelimiterWithoutDollar(s: string)
    requires s != "" && s[0] != '$'
    ensures DollarLen(s, 0) == 0
  {
  }

  lemma HasFirst(x: string, rest: string, t: string)
    requires Has(x, 0, t)
    ensures Has(x + rest, 0, t) && |x| >= |t|
  {
    assert (x + rest)[..|t|] == x[..|t|];
  }

  /** A line comment is blanked, and the text from the line break on is masked as a fresh input. */
  lemma LineCommentLaw(x: string, rest: string, sql: bool)
    requires LineComment(x, rest, sql)
    ensures Masked(x + rest, sql) == Blanked(x) + Masked(rest, sql)
  {
    var s := x + rest;
    HasTwo(s, 0, '/', '/');
    HasTwo(s, 0, '-', '-');
    if Has(x, 0, "#") {
      HasFirst(x, rest, "#");
      assert s[0..1][0] == '#';
    } else if Has(x, 0, "//") {
      HasFirst(x, rest, "//");
    } else {
      HasFirst(x, rest, "--");
    }
    assert s != "" && s[0] != '$' && OpensLineComment(s, 0, sql);
    NoDelimiterWithoutDollar(s);
    forall k | 0 <= k < |x|
      ensures s[k] != '\n'
    {
      assert s[k] == x[k];
    }
    assert |x| < |s| ==> s[|x|] == rest[0];
    LineEndIs(s, 0, |x|);
    hide LineEnd, DollarLen, OpensLineComment, Masked;
    assert TokenAt(s, 0, sql) == Token(Comment, 0, |x|);
    FirstToken(x, rest, sql);
    BlankLeft(x, TokenAt(s, 0, sql));
  }

  lemma HasBefore(x: string, rest: string, k: nat, t: string)
    requires k + |t| <= |x|
    ensures Has(x + rest, k, t) <==> Has(x, k, t)
  {
    assert (x + rest)[k..k + |t|] == x[k..k + |t|];
  }

  /** A block comment is blanked up to its first terminator, and the text behind it is masked as a
      fresh input. */
  lemma BlockCommentLaw(x: string, rest: string, sql: bool)
    requires BlockComment(x, rest)
    ensures Masked(x + rest, sql) == Blanked(x) + Masked(rest, sql)
  {
    hide *;
    BlockEnds(x, rest);
    BlockToken(x + rest, sql);
    FirstToken(x, rest, sql);
    BlankLeft(x, TokenAt(x + rest, 0, sql));
  }

  lemma BlockToken(s: string, sql: bool)
    requires |s| >= 2 && Two(s, 0, '/', '*')
    ensures TokenAt(s, 0, sql) == Token(Comment, 0, BlockEnd(s, 2))
  {
    NoDelimiterWithoutDollar(s);
    hide DollarLen, BlockEnd, LineEnd, PastNext, QuoteEnd;
  }

  lemma NoTerminatorIn(x: string, rest: string, e: nat)
    requires e + 2 <= |x| || (rest == "" && e <= |x|)
    requires forall k :: 2 <= k < e ==> !Has(x, k, "*/")
    ensures forall k :: 2 <= k < e ==> !Two(x + rest, k, '*', '/')
  {
    assert rest == "" ==> x + rest == x;
    hide Has, Two;
    forall k | 2 <= k < e
      ensures !Two(x + rest, k, '*', '/')
    {
      HasTwo(x + rest, k, '*', '/');
      if rest != "" {
        HasBefore(x, rest, k, "*/");
      }
    }
  }

  lemma BlockEnds(x: string, rest: string)
    requires BlockComment(x, rest)
    ensures |x| >= 2 && Two(x + rest, 0, '/', '*') && BlockEnd(x + rest, 2) == |x|
  {
    hide Has, Two, BlockEnd;
    var s := x + rest;
    HasFirst(x, rest, "/*");
    HasTwo(s, 0, '/', '*');
    if |x| >= 4 && Has(x, |x| - 2, "*/") && forall k :: 2 <= k < |x| - 2 ==> !Has(x, k, "*/") {
      NoTerminatorIn(x, rest, |x| - 2);
      HasBefore(x, rest, |x| - 2, "*/");
      HasTwo(s, |x| - 2, '*', '/');
      BlockEndIs(s, 2, |x| - 2);
    } else {
      NoTerminatorIn(x, rest, |x|);
      assert s == x;
      BlockEndIs(s, 2, |x|);
    }
  }

  lemma {:induction false} TagEndIs(s: string, j: nat, e: nat)
    requires j <= e <= |s| && (forall k :: j <= k < e ==> IsTagChar(s[k])) && (e == |s| || !IsTagChar(s[e]))
    ensures TagEnd(s, j) == e
    decreases e - j
  {
    if j < e {
      TagEndIs(s, j + 1, e);
    }
  }

  /** The delimiter at the start of a text. */
  lemma DelimiterIs(s: string, d: string)
    requires Delimiter(d) && Has(s, 0, d)
    ensures s != "" && DollarLen(s, 0) == |d| && s[0] == '$'
  {
    assert forall k :: 0 <= k < |d| ==> s[k] == s[0..|d|][k] == d[k];
    if |d| > 2 {
      assert Letter(d[1]);
      TagEndIs(s, 1, |d| - 1);
    }
    hide TagEnd;
  }

  lemma HasPrefixAt(s: string, p: nat, t: string)
    ensures Has(s, p, t) <==> PrefixAt(s, p, t)
  {
  }

  /** In SQL a dollar literal is blanked up to the next copy of its delimiter, and the text behind it
      is masked as a fresh input. */
  lemma DollarLiteralLaw(x: string, rest: string, d: string)
    requires DollarLiteral(x, rest, d)
    ensures Masked(x + rest, true) == Blanked(x) + Masked(rest, true)
  {
    var s, n := x + rest, |d|;
    HasFirst(x, rest, d);
    DelimiterIs(s, d);
    assert s[0..n] == d by {
      assert Has(s, 0, d);
    }
    DollarEnds(x, rest, d);
    hide PastNext, DollarLen, Masked, DollarLiteral;
    assert TokenAt(s, 0, true) == Token(Literal, 0, |x|);
    FirstToken(x, rest, true);
    BlankLeft(x, TokenAt(s, 0, true));
  }

  lemma NoCopyIn(x: string, rest: string, d: string, n: nat, e: nat)
    requires e + |d| <= |x| || rest == ""
    requires forall k :: n <= k < e ==> !Has(x, k, d)
    ensures forall k :: n <= k < e ==> !PrefixAt(x + rest, k, d)
  {
    assert rest == "" ==> x + rest == x;
    hide PrefixAt, Has;
    forall k | n <= k < e
      ensures !PrefixAt(x + rest, k, d)
    {
      HasPrefixAt(x + rest, k, d);
      if rest != "" {
        HasBefore(x, rest, k, d);
      }
    }
  }

  lemma DollarEnds(x: string, rest: string, d: string)
    requires DollarLiteral(x, rest, d)
    ensures |d| <= |x| && PastNext(x + rest, |d|, d) == |x|
  {
    HasFirst(x, rest, d);
    hide Delimiter, PrefixAt, Has, PastNext;
    var s, n := x + rest, |d|;
    var closed := |x| >= 2 * n && Has(x, |x| - n, d) && forall k :: n <= k < |x| - n ==> !Has(x, k, d);
    if closed {
      NoCopyIn(x, rest, d, n, |x| - n);
      HasBefore(x, rest, |x| - n, d);
      HasPrefixAt(s, |x| - n, d);
      PastNextIs(s, n, d, |x| - n);
    } else {
      NoCopyIn(x, rest, d, n, |x|);
      assert s == x;
      HasPrefixAt(s, |x|, d);
      PastNextIs(s, n, d, |x|);
    }
  }

  lemma QuoteOpener(s: string, c: char, w: nat, sql: bool)
    requires Quotes(c) && (w == 1 || w == 3) && (w == 3 <==> !sql && Has(s, 0, Run(c, 3))) && Has(s, 0, Run(c, w))
    ensures s != "" && s[0] == c && QuoteWidth(s, 0, sql) == w && !OtherOpener(s, sql)
  {
    assert s[0..w][0] == Run(c, w)[0];
    HasRun(s, 0, c, 3);
  }

  /** Nothing but a quote opens here. */
  predicate OtherOpener(s: string, sql: bool)
    requires s != ""
  {
    (sql && DollarLen(s, 0) > 0) || OpensLineComment(s, 0, sql) || Two(s, 0, '/', '*')
  }

  /** A quoted text is blanked up to its closing quotes, an SQL name leaves one x, and the text behind
      it is masked as a fresh input. */
  lemma QuotedLaw(x: string, rest: string, c: char, w: nat, sql: bool)
    requires Quoted(x, rest, c, w, sql)
    ensures x != ""
    ensures Masked(x + rest, sql) == (if sql && c != '\'' then Named(x) else Blanked(x)) + Masked(rest, sql)
  {
    var s := x + rest;
    HasFirst(x, rest, Run(c, w));
    QuoteOpener(s, c, w, sql);
    QuotedEnd(x, rest, c, w, sql);
    hide QuoteEnd, DollarLen, Masked, Quoted, OtherOpener, ClosedBy, NeverClosed;
    OnlyQuote(s, sql);
    assert TokenAt(s, 0, sql) == Token(if sql && c != '\'' then QuotedName else Literal, 0, |x|);
    FirstToken(x, rest, sql);
    if sql && c != '\'' {
      NameLeft(x, TokenAt(s, 0, sql));
    } else {
      BlankLeft(x, TokenAt(s, 0, sql));
    }
  }

  lemma OnlyQuote(s: string, sql: bool)
    requires s != "" && !OtherOpener(s, sql)
    ensures !(sql && DollarLen(s, 0) > 0) && !OpensLineComment(s, 0, sql) && !Two(s, 0, '/', '*')
  {
  }

  lemma QuotedEnd(x: string, rest: string, c: char, w: nat, sql: bool)
    requires Quoted(x, rest, c, w, sql)
    ensures w <= |x| && QuoteEnd(x + rest, w, c, w, sql) == |x|
  {
    var s := x + rest;
    HasFirst(x, rest, Run(c, w));
    if ClosedBy(x[w..], c, w, sql) && !(sql && Has(rest, 0, Run(c, w))) {
      assert s[w..|x|] == x[w..];
      if sql {
        HasAfter(x, rest, Run(c, w));
      }
      QuoteEndIs(s, w, |x|, c, w, sql);
    } else {
      assert s == x && s[w..] == x[w..];
      QuoteNeverEnds(s, w, c, w, sql);
    }
  }

  lemma HasAfter(x: string, rest: string, t: string)
    ensures Has(x + rest, |x|, t) <==> Has(rest, 0, t)
  {
    if |t| <= |rest| {
      assert (x + rest)[|x|..|x| + |t|] == rest[0..|t|];
    }
  }

  /** Any other character is code: it stays, and the text behind it is masked as a fresh input. */
  lemma CodeLaw(c: char, rest: string, sql: bool)
    requires Plain([c] + rest, sql)
    ensures Masked([c] + rest, sql) == [c] + Masked(rest, sql)
  {
    var s := [c] + rest;
    HasTwo(s, 0, '/', '/');
    HasTwo(s, 0, '/', '*');
    HasTwo(s, 0, '-', '-');
    assert s[0..1] == [c];
    PlainHasNoDelimiter(s, sql);
    hide DollarLen, Masked;
    assert TokenAt(s, 0, sql) == Token(Code, 0, 1);
    FirstToken([c], rest, sql);
    CodeLeft([c], TokenAt(s, 0, sql));
  }

  lemma PlainHasNoDelimiter(s: string, sql: bool)
    requires Plain(s, sql)
    ensures sql ==> DollarLen(s, 0) == 0
  {
    var d := DollarLen(s, 0);
    if sql && d > 0 {
      assert !Delimiter(s[..d]);
      DollarIsDelimiter(s);
    }
  }

  lemma DollarIsDelimiter(s: string)
    requires s != "" && DollarLen(s, 0) > 0
    ensures Delimiter(s[..DollarLen(s, 0)])
  {
    var d := s[..DollarLen(s, 0)];
    forall k | 1 <= k < |d| - 1
      ensures Letter(d[k]) || (k > 1 && '0' <= d[k] <= '9')
    {
      assert d[k] == s[k] && IsTagChar(s[k]);
      assert d[1] == s[1];
    }
    hide TagEnd;
  }

  // ---------------------------------------------------------------- every text begins with a lexeme

  lemma {:induction false} LineEndStops(s: string, j: nat)
    requires j <= |s|
    ensures var e := LineEnd(s, j); (forall k :: j <= k < e ==> s[k] != '\n') && (e == |s| || s[e] == '\n')
    decreases |s| - j
  {
    if j < |s| && s[j] != '\n' {
      LineEndStops(s, j + 1);
    }
  }

  lemma {:induction false} BlockEndStops(s: string, j: nat) returns (e: nat)
    requires j <= |s|
    ensures j <= e <= |s| && (forall k :: j <= k < e ==> !Two(s, k, '*', '/')) && (e == |s| || Two(s, e, '*', '/'))
    ensures BlockEnd(s, j) == if e == |s| then e else e + 2
    decreases |s| - j
  {
    e := j;
    if j < |s| && !Two(s, j, '*', '/') {
      e := BlockEndStops(s, j + 1);
    }
  }

  lemma {:induction false} PastNextStops(s: string, p: nat, t: string) returns (e: nat)
    requires p <= |s|
    ensures p <= e <= |s| && (forall k :: p <= k < e ==> !PrefixAt(s, k, t)) && (e == |s| || PrefixAt(s, e, t))
    ensures PastNext(s, p, t) == if PrefixAt(s, e, t) then e + |t| else e
    decreases |s| - p
  {
    e := p;
    if p < |s| && !PrefixAt(s, p, t) {
      e := PastNextStops(s, p + 1, t);
    }
  }

  /** Where the quote loop stops, the grammar of quoted texts is complete. */
  lemma {:induction false} QuoteEndStops(s: string, j: nat, c: char, w: nat, sql: bool)
    requires w > 0 && c != '\\' && j <= |s|
    ensures Stops(s, j, QuoteEnd(s, j, c, w, sql), c, w, sql)
    decreases |s| - j
  {
    hide Stops, ClosedBy, NeverClosed;
    var e := QuoteEnd(s, j, c, w, sql);
    HasRun(s, j, c, w);
    if j == |s| || (s[j] == '\\' && j + 1 == |s|) {
      NothingStops(s, j, c, w, sql);
    } else if s[j] == '\\' {
      QuoteEndStops(s, j + 2, c, w, sql);
      EscapeStops(s, j, e, c, w, sql);
    } else if !QuoteAt(s, j, c, w) {
      QuoteEndStops(s, j + 1, c, w, sql);
      PlainStops(s, j, e, c, w, sql);
    } else {
      HasRun(s, j + w, c, w);
      if sql && QuoteAt(s, j + w, c, w) {
        QuoteEndStops(s, j + w + w, c, w, sql);
        DoubledStops(s, j, e, c, w, sql);
      } else {
        RunStops(s, j, c, w, sql);
      }
    }
  }

  /** Read from j, the quoted text ends at e: closed there, or with the input. */
  predicate Stops(s: string, j: nat, e: nat, c: char, w: nat, sql: bool)
    requires j <= e <= |s| && w > 0
  {
    || (ClosedBy(s[j..e], c, w, sql) && !(sql && Has(s, e, Run(c, w))))
    || (e == |s| && NeverClosed(s[j..], c, w, sql))
  }

  lemma NothingStops(s: string, j: nat, c: char, w: nat, sql: bool)
    requires w > 0 && j <= |s| && (j == |s| || (s[j] == '\\' && j + 1 == |s|))
    ensures Stops(s, j, |s|, c, w, sql)
  {
    assert s[j..] == "" || s[j..] == "\\";
  }

  lemma EscapeStops(s: string, j: nat, e: nat, c: char, w: nat, sql: bool)
    requires w > 0 && j + 2 <= e <= |s| && s[j] == '\\' && Stops(s, j + 2, e, c, w, sql)
    ensures Stops(s, j, e, c, w, sql)
  {
    assert s[j..e][2..] == s[j + 2..e] && s[j..][2..] == s[j + 2..];
  }

  lemma PlainStops(s: string, j: nat, e: nat, c: char, w: nat, sql: bool)
    requires w > 0 && j + 1 <= e <= |s| && s[j] != '\\' && !Has(s, j, Run(c, w)) && Stops(s, j + 1, e, c, w, sql)
    ensures Stops(s, j, e, c, w, sql)
  {
    var t, u := s[j..e], s[j..];
    assert t[1..] == s[j + 1..e] && u[1..] == s[j + 1..] && s[j..|s|] == u;
    if |t| >= w {
      HasInSlice(s, j, e, 0, Run(c, w));
    }
    if |u| >= w {
      HasInSlice(s, j, |s|, 0, Run(c, w));
    }
  }

  lemma RunStops(s: string, j: nat, c: char, w: nat, sql: bool)
    requires w > 0 && Has(s, j, Run(c, w)) && !(sql && Has(s, j + w, Run(c, w)))
    ensures Stops(s, j, j + w, c, w, sql)
  {
  }

  lemma DoubledStops(s: string, j: nat, e: nat, c: char, w: nat, sql: bool)
    requires w > 0 && sql && j + 2 * w <= e <= |s| && Has(s, j, Run(c, w)) && Has(s, j + w, Run(c, w))
    requires Stops(s, j + w + w, e, c, w, sql)
    ensures Stops(s, j, e, c, w, sql)
  {
    var t, u := s[j..e], s[j..];
    assert s[j..|s|] == u;
    HasInSlice(s, j, e, 0, Run(c, w));
    HasInSlice(s, j, e, w, Run(c, w));
    HasInSlice(s, j, |s|, 0, Run(c, w));
    HasInSlice(s, j, |s|, w, Run(c, w));
    assert t[2 * w..] == s[j + w + w..e] && u[2 * w..] == s[j + w + w..];
    if ClosedBy(t[2 * w..], c, w, sql) {
      ClosedIsLong(t[2 * w..], c, w, sql);
    }
  }

  predicate IsDollarLiteral(x: string, rest: string) {
    exists n :: 0 <= n <= |x| && DollarLiteral(x, rest, x[..n])
  }

  predicate IsQuoted(x: string, rest: string, sql: bool) {
    x != "" && (Quoted(x, rest, x[0], 1, sql) || Quoted(x, rest, x[0], 3, sql))
  }

  /** x is the first lexeme of the text x + rest. */
  predicate Lexeme(x: string, rest: string, sql: bool) {
    || LineComment(x, rest, sql) || BlockComment(x, rest) || (sql && IsDollarLiteral(x, rest))
    || IsQuoted(x, rest, sql) || (|x| == 1 && Plain(x + rest, sql))
  }

  lemma SplitLine(s: string, sql: bool, e: nat)
    requires s != "" && OpensLineComment(s, 0, sql) && e == LineEnd(s, 0)
    ensures LineComment(s[..e], s[e..], sql)
  {
    LineEndStops(s, 0);
    HasTwo(s, 0, '/', '/');
    HasTwo(s, 0, '-', '-');
    var x := s[..e];
    assert s == x + s[e..];
    assert e > 0;
    if s[0] == '#' {
      assert x[0..1] == "#";
    } else {
      assert s[1] != '\n';
      HasBefore(x, s[e..], 0, "//");
      HasBefore(x, s[e..], 0, "--");
    }
    hide LineEnd;
  }

  lemma SplitBlock(s: string, e: nat)
    requires |s| >= 2 && Two(s, 0, '/', '*') && e == BlockEnd(s, 2)
    ensures BlockComment(s[..e], s[e..])
  {
    var k := BlockEndStops(s, 2);
    var x, rest := s[..e], s[e..];
    hide BlockEnd;
    assert s == x + rest;
    HasTwo(s, 0, '/', '*');
    HasBefore(x, rest, 0, "/*");
    HasTwo(s, k, '*', '/');
    forall j | 2 <= j < k
      ensures !Has(x, j, "*/")
    {
      HasTwo(s, j, '*', '/');
      if j + 2 <= |x| {
        HasBefore(x, rest, j, "*/");
      }
    }
    if k < |s| {
      HasBefore(x, rest, |x| - 2, "*/");
    }
  }

  /** A copy inside the first part of a text is a copy of the text. */
  lemma CopyOf(x: string, rest: string, j: nat, d: string)
    ensures Has(x, j, d) ==> PrefixAt(x + rest, j, d)
    ensures j + |d| <= |x| && PrefixAt(x + rest, j, d) ==> Has(x, j, d)
  {
    if j + |d| <= |x| {
      HasBefore(x, rest, j, d);
      HasPrefixAt(x + rest, j, d);
    }
  }

  lemma NoCopyBefore(x: string, rest: string, d: string, n: nat, k: nat)
    requires forall j :: n <= j < k ==> !PrefixAt(x + rest, j, d)
    ensures forall j :: n <= j < k ==> !Has(x, j, d)
  {
    hide PrefixAt, Has;
    forall j | n <= j < k
      ensures !Has(x, j, d)
    {
      CopyOf(x, rest, j, d);
    }
  }

  lemma SplitDollar(s: string, e: nat)
    requires s != "" && DollarLen(s, 0) > 0
    requires var d := DollarLen(s, 0); e == PastNext(s, d, s[0..d])
    ensures IsDollarLiteral(s[..e], s[e..])
  {
    hide PastNext, DollarLen, Delimiter, PrefixAt, Has;
    var n := DollarLen(s, 0);
    var d := s[..n];
    DollarIsDelimiter(s);
    assert s[0..n] == d;
    var k := PastNextStops(s, n, d);
    var x, rest := s[..e], s[e..];
    assert s == x + rest && x[..n] == d;
    NoCopyBefore(x, rest, d, n, k);
    CopyOf(x, rest, k, d);
    CopyIsThere(x, d);
    if PrefixAt(s, k, d) {
      assert DollarLiteral(x, rest, x[..n]);
    } else {
      assert x == s && rest == "";
      NoCopyAt(x, |x|, d);
      assert DollarLiteral(x, rest, x[..n]);
    }
  }

  lemma CopyIsThere(x: string, d: string)
    requires d <= x
    ensures Has(x, 0, d)
  {
    assert x[0..|d|] == d;
  }

  lemma NoCopyAt(x: string, j: nat, d: string)
    requires d != "" && j >= |x|
    ensures !Has(x, j, d)
  {
  }

  lemma SplitQuoted(s: string, sql: bool, e: nat)
    requires s != "" && IsQuote(s[0]) && (var w := QuoteWidth(s, 0, sql); e == QuoteEnd(s, w, s[0], w, sql)) && e > 0
    ensures IsQuoted(s[..e], s[e..], sql)
  {
    var c, w := s[0], QuoteWidth(s, 0, sql);
    HasRun(s, 0, c, 3);
    HasRun(s, 0, c, w);
    QuoteEndStops(s, w, c, w, sql);
    var x, rest := s[..e], s[e..];
    hide QuoteEnd, ClosedBy, NeverClosed, QuoteAt;
    assert Stops(s, w, e, c, w, sql);
    assert s == x + rest && w <= e;
    assert s[w..e] == x[w..];
    HasAfter(x, rest, Run(c, w));
    HasBefore(x, rest, 0, Run(c, w));
    if e == |s| {
      assert s[w..] == x[w..];
    }
    assert Quoted(x, rest, c, w, sql);
    hide Quoted;
  }

  lemma SplitPlain(s: string, sql: bool)
    requires s != "" && !Opens(s, 0, sql)
    ensures Plain(s[..1] + s[1..], sql)
  {
    HasTwo(s, 0, '/', '/');
    HasTwo(s, 0, '/', '*');
    HasTwo(s, 0, '-', '-');
    assert s[..1] + s[1..] == s;
    assert s[0] != '#' && s[0..1] == [s[0]];
    if sql {
      forall k | 2 <= k <= |s|
        ensures !Delimiter(s[..k])
      {
        if Delimiter(s[..k]) {
          assert Has(s, 0, s[..k]);
          DelimiterIs(s, s[..k]);
          hide *;
          assert false;
        }
      }
    }
  }

  /** Every text that is not empty begins with a lexeme. */
  lemma EveryTextSplits(s: string, sql: bool) returns (x: string, rest: string)
    requires s != ""
    ensures s == x + rest && x != "" && Lexeme(x, rest, sql)
  {
    var t := TokenAt(s, 0, sql);
    var e := t.end;
    x, rest := s[..e], s[e..];
    hide LineComment, BlockComment, IsDollarLiteral, IsQuoted, Plain, LineEnd, BlockEnd, PastNext, QuoteEnd, DollarLen,
         QuoteWidth, OpensLineComment;
    if sql && DollarLen(s, 0) > 0 {
      SplitDollar(s, e);
    } else if OpensLineComment(s, 0, sql) {
      SplitLine(s, sql, e);
    } else if Two(s, 0, '/', '*') {
      SplitBlock(s, e);
    } else if IsQuote(s[0]) {
      SplitQuoted(s, sql, e);
    } else {
      SplitPlain(s, sql);
    }
  }

  // ---------------------------------------------------------------- the laws determine the masked text

  /** What the law of each kind of lexeme says of one split: the lexeme leaves its blanks, one x, or its
      one character, and the rest is masked on its own. */
  predicate Law(mask: string -> string, x: string, rest: string, sql: bool) {
    && (LineComment(x, rest, sql) ==> mask(x + rest) == Blanked(x) + mask(rest))
    && (BlockComment(x, rest) ==> mask(x + rest) == Blanked(x) + mask(rest))
    && (sql && IsDollarLiteral(x, rest) ==> mask(x + rest) == Blanked(x) + mask(rest))
    && (IsQuoted(x, rest, sql) ==>
          mask(x + rest) == (if sql && x[0] != '\'' then Named(x) else Blanked(x)) + mask(rest))
    && (|x| == 1 && Plain(x + rest, sql) ==> mask(x + rest) == x + mask(rest))
  }

  ghost predicate Obeys(mask: string -> string, sql: bool) {
    mask("") == "" && forall x, rest :: Law(mask, x, rest, sql)
  }

  lemma LawHolds(mask: string -> string, x: string, rest: string, sql: bool)
    requires forall s :: mask(s) == Masked(s, sql)
    ensures Law(mask, x, rest, sql)
  {
    hide LineComment, BlockComment, DollarLiteral, Quoted, Plain, Masked, Blanked, Named;
    if LineComment(x, rest, sql) {
      LineCommentLaw(x, rest, sql);
    }
    if BlockComment(x, rest) {
      BlockCommentLaw(x, rest, sql);
    }
    if sql && IsDollarLiteral(x, rest) {
      var n :| 0 <= n <= |x| && DollarLiteral(x, rest, x[..n]);
      DollarLiteralLaw(x, rest, x[..n]);
    }
    if IsQuoted(x, rest, sql) {
      QuotedLaw(x, rest, x[0], if Quoted(x, rest, x[0], 1, sql) then 1 else 3, sql);
    }
    if |x| == 1 && Plain(x + rest, sql) {
      assert x == [x[0]];
      CodeLaw(x[0], rest, sql);
    }
  }

  /** The masked text obeys all laws. */
  lemma MaskedObeys(mask: string -> string, sql: bool)
    requires forall s :: mask(s) == Masked(s, sql)
    ensures Obeys(mask, sql)
  {
    hide Masked, Law;
    EmptyLaw(sql);
    forall x, rest
      ensures Law(mask, x, rest, sql)
    {
      LawHolds(mask, x, rest, sql);
    }
  }

  /** And no other function does: two that obey the laws agree on every text. */
  lemma {:induction false} LawsDetermineMasking(mask: string -> string, other: string -> string, s: string, sql: bool)
    requires Obeys(mask, sql) && Obeys(other, sql)
    ensures mask(s) == other(s)
    decreases |s|
  {
    if s != "" {
      var x, rest := EveryTextSplits(s, sql);
      LawsDetermineMasking(mask, other, rest, sql);
      assert Law(mask, x, rest, sql) && Law(other, x, rest, sql);
      hide LineComment, BlockComment, IsDollarLiteral, IsQuoted, Plain, Blanked, Named;
    }
  }
}
