/** The masking lexer: literals and comments are blanked in place, byte offsets are preserved. */
module MaskCode {

  datatype Kind = Code | Comment | Literal | QuotedName

  /** One token [start, end) of the input. */
  datatype Token = Token(kind: Kind, start: nat, end: nat)

  predicate IsQuote(c: char) {
    c == '\'' || c == '"' || c == '`'
  }

  predicate IsNewline(c: char) {
    c == '\n' || c == '\r'
  }

  predicate IsTagStart(c: char) {
    'A' <= c <= 'Z' || 'a' <= c <= 'z' || c == '_'
  }

  predicate IsTagChar(c: char) {
    IsTagStart(c) || '0' <= c <= '9'
  }

  predicate Two(s: string, i: nat, a: char, b: char) {
    i + 1 < |s| && s[i] == a && s[i + 1] == b
  }

  // ---------------------------------------------------------------- scanning functions

  function TagEnd(s: string, j: nat): (e: nat)
    requires j <= |s|
    ensures j <= e <= |s|
    ensures forall k :: j <= k < e ==> IsTagChar(s[k])
    ensures e < |s| ==> !IsTagChar(s[e])
    decreases |s| - j
  {
    if j < |s| && IsTagChar(s[j]) then TagEnd(s, j + 1) else j
  }

  /** The length of the dollar-quote delimiter at i, or 0. */
  function DollarLen(s: string, i: nat): (d: nat)
    requires i < |s|
    ensures i + d <= |s|
    ensures d > 0 ==> d >= 2 && s[i] == '$'
  {
    if s[i] != '$' || i + 1 == |s| then 0
    else if s[i + 1] == '$' then 2
    else if !IsTagStart(s[i + 1]) then 0
    else
      var e := TagEnd(s, i + 1);
      if e < |s| && s[e] == '$' then e + 1 - i else 0
  }

  predicate PrefixAt(s: string, p: nat, t: string) {
    p + |t| <= |s| && s[p..p + |t|] == t
  }

  /** The end of the first occurrence of t at or after p, or the end of input. */
  function PastNext(s: string, p: nat, t: string): (e: nat)
    requires p <= |s|
    ensures p <= e <= |s|
    decreases |s| - p
  {
    if PrefixAt(s, p, t) then p + |t|
    else if p == |s| then p
    else PastNext(s, p + 1, t)
  }

  function LineEnd(s: string, j: nat): (e: nat)
    requires j <= |s|
    ensures j <= e <= |s|
    decreases |s| - j
  {
    if j < |s| && s[j] != '\n' then LineEnd(s, j + 1) else j
  }

  function BlockEnd(s: string, j: nat): (e: nat)
    requires j <= |s|
    ensures j <= e <= |s|
    decreases |s| - j
  {
    if j < |s| && !Two(s, j, '*', '/') then BlockEnd(s, j + 1)
    else if j + 2 <= |s| then j + 2 else |s|
  }

  predicate QuoteAt(s: string, j: nat, c: char, width: nat) {
    j + width <= |s| && forall k :: j <= k < j + width ==> s[k] == c
  }

  function QuoteEnd(s: string, j: nat, c: char, width: nat, sql: bool): (e: nat)
    requires j <= |s| && width > 0
    ensures j <= e <= |s|
    ensures j < |s| ==> j < e
    decreases |s| - j
  {
    if j == |s| then j
    else if s[j] == '\\' then QuoteEnd(s, if j + 2 <= |s| then j + 2 else |s|, c, width, sql)
    else if !QuoteAt(s, j, c, width) then QuoteEnd(s, j + 1, c, width, sql)
    else if sql && QuoteAt(s, j + width, c, width) then QuoteEnd(s, j + width + width, c, width, sql)
    else j + width
  }

  /** Three equal quotes open a triple-quoted string outside SQL. */
  function QuoteWidth(s: string, i: nat, sql: bool): (w: nat)
    requires i < |s|
    ensures w == 1 || (w == 3 && i + 3 <= |s| && !sql)
  {
    if !sql && QuoteAt(s, i, s[i], 3) then 3 else 1
  }

  predicate OpensLineComment(s: string, i: nat, sql: bool)
    requires i < |s|
  {
    s[i] == '#' || Two(s, i, '/', '/') || (sql && Two(s, i, '-', '-'))
  }

  /** Some literal or comment starts at i. */
  predicate Opens(s: string, i: nat, sql: bool)
    requires i < |s|
  {
    (sql && DollarLen(s, i) > 0) || OpensLineComment(s, i, sql) || Two(s, i, '/', '*') || IsQuote(s[i])
  }

  /** The token starting at i, branch by branch in the lexer's order. */
  function TokenAt(s: string, i: nat, sql: bool): (t: Token)
    requires i < |s|
    ensures t.start == i < t.end <= |s|
    ensures t.kind == Code <==> !Opens(s, i, sql)
    ensures t.kind == Code ==> t.end == i + 1
    ensures t.kind == QuotedName ==> sql && IsQuote(s[i]) && s[i] != '\'' && (t.end >= i + 2 || i + 1 == |s|)
  {
    if sql && DollarLen(s, i) > 0 then
      var d := DollarLen(s, i);
      Token(Literal, i, PastNext(s, i + d, s[i..i + d]))
    else if OpensLineComment(s, i, sql) then Token(Comment, i, LineEnd(s, i))
    else if Two(s, i, '/', '*') then Token(Comment, i, BlockEnd(s, i + 2))
    else if IsQuote(s[i]) then
      var w := QuoteWidth(s, i, sql);
      Token(if sql && s[i] != '\'' then QuotedName else Literal, i, QuoteEnd(s, i + w, s[i], w, sql))
    else Token(Code, i, i + 1)
  }

  /** The token covering position j when lexing from the token boundary i. */
  function Covering(s: string, i: nat, j: nat, sql: bool): (t: Token)
    requires i <= j < |s|
    ensures i <= t.start <= j < t.end <= |s| && t == TokenAt(s, t.start, sql)
    decreases |s| - i
  {
    var t := TokenAt(s, i, sql);
    if j < t.end then t else Covering(s, t.end, j, sql)
  }

  function Shown(c: char, j: nat, t: Token): char {
    if t.kind == Code then c
    else if t.kind == QuotedName && j == t.start then 'x'
    else if IsNewline(c) then c
    else ' '
  }

  /** The masked input: every position shows what its covering token leaves of it. */
  function Masked(s: string, sql: bool): (r: string)
    ensures |r| == |s|
  {
    seq(|s|, j requires 0 <= j < |s| => Shown(s[j], j, Covering(s, 0, j, sql)))
  }

  // ---------------------------------------------------------------- the in-place lexer

  method Blank(out: array<char>, start: nat, end: nat)
    requires start <= end <= out.Length
    modifies out
    ensures forall j :: start <= j < end ==> out[j] == if IsNewline(old(out[j])) then old(out[j]) else ' '
    ensures forall j :: 0 <= j < out.Length && !(start <= j < end) ==> out[j] == old(out[j])
  {
    for j := start to end
      invariant forall k :: start <= k < j ==> out[k] == if IsNewline(old(out[k])) then old(out[k]) else ' '
      invariant forall k :: 0 <= k < out.Length && !(start <= k < j) ==> out[k] == old(out[k])
    {
      if out[j] != '\n' && out[j] != '\r' {
        out[j] := ' ';
      }
    }
  }

  method SkipLine(code: string, start: nat) returns (i: nat)
    requires start <= |code|
    ensures i == LineEnd(code, start)
  {
    i := start;
    while i < |code| && code[i] != '\n'
      invariant start <= i <= |code| && LineEnd(code, i) == LineEnd(code, start)
    {
      i := i + 1;
    }
  }

  method SkipBlock(code: string, start: nat) returns (i: nat)
    requires start <= |code|
    ensures i == BlockEnd(code, start)
  {
    i := start;
    while i < |code| && !Two(code, i, '*', '/')
      invariant start <= i <= |code| && BlockEnd(code, i) == BlockEnd(code, start)
    {
      i := i + 1;
    }
    i := if i + 2 < |code| then i + 2 else |code|;
  }

  method SkipQuoted(code: string, start: nat, c: char, width: nat, sql: bool) returns (i: nat)
    requires start <= |code| && width > 0
    ensures i == QuoteEnd(code, start, c, width, sql)
  {
    i := start;
    while i < |code|
      invariant start <= i <= |code|
      invariant QuoteEnd(code, i, c, width, sql) == QuoteEnd(code, start, c, width, sql)
    {
      if code[i] == '\\' {
        i := if i + 2 <= |code| then i + 2 else |code|;
        continue;
      }
      if QuoteAt(code, i, c, width) {
        if sql && QuoteAt(code, i + width, c, width) {
          i := i + width + width;
          continue;
        }
        return i + width;
      }
      i := i + 1;
    }
  }

  /** One turn of the main loop: the branches end where the functional lexer ends its token. */
  method ScanToken(code: string, start: nat, sql: bool) returns (i: nat, kind: Kind)
    requires start < |code|
    ensures Token(kind, start, i) == TokenAt(code, start, sql)
  {
    i := start;
    if sql && code[i] == '$' {
      var d := DollarLen(code, i);
      if d > 0 {
        return PastNext(code, i + d, code[i..i + d]), Literal;
      }
    }
    if code[i] == '#' || Two(code, i, '/', '/') || (sql && Two(code, i, '-', '-')) {
      i := SkipLine(code, i);
      return i, Comment;
    }
    if Two(code, i, '/', '*') {
      i := SkipBlock(code, i + 2);
      return i, Comment;
    }
    if code[i] == '\'' || code[i] == '"' || code[i] == '`' {
      var width := QuoteWidth(code, i, sql);
      i := SkipQuoted(code, i + width, code[i], width, sql);
      return i, if sql && code[start] != '\'' then QuotedName else Literal;
    }
    return i + 1, Code;
  }

  lemma {:induction false} CoveringFromBoundary(s: string, i: nat, b: nat, j: nat, sql: bool)
    requires i <= b <= j < |s| && IsBoundary(s, i, b, sql)
    ensures Covering(s, i, j, sql) == Covering(s, b, j, sql)
    decreases |s| - i
  {
    if i < b {
      CoveringFromBoundary(s, TokenAt(s, i, sql).end, b, j, sql);
    }
  }

  /** Lexing from i passes through position b between two tokens. */
  predicate IsBoundary(s: string, i: nat, b: nat, sql: bool)
    requires i <= b <= |s|
    decreases |s| - i
  {
    i == b || (i < |s| && TokenAt(s, i, sql).end <= b && IsBoundary(s, TokenAt(s, i, sql).end, b, sql))
  }

  lemma {:induction false} NextBoundary(s: string, i: nat, b: nat, sql: bool)
    requires i <= b < |s| && IsBoundary(s, i, b, sql)
    ensures IsBoundary(s, i, TokenAt(s, b, sql).end, sql)
    decreases |s| - i
  {
    if i < b {
      NextBoundary(s, TokenAt(s, i, sql).end, b, sql);
    }
  }

  /** Every token between two boundaries covers exactly its own positions. */
  lemma TokenCovers(s: string, b: nat, j: nat, sql: bool)
    requires b <= j < |s| && IsBoundary(s, 0, b, sql) && j < TokenAt(s, b, sql).end
    ensures Covering(s, 0, j, sql) == TokenAt(s, b, sql)
    ensures Masked(s, sql)[j] == Shown(s[j], j, TokenAt(s, b, sql))
  {
    CoveringFromBoundary(s, 0, b, j, sql);
  }

  lemma TokenIsShown(s: string, sql: bool, t: Token)
    requires t.start < |s| && IsBoundary(s, 0, t.start, sql) && t == TokenAt(s, t.start, sql)
    ensures forall j :: t.start <= j < t.end ==> Masked(s, sql)[j] == Shown(s[j], j, t)
  {
    hide TokenAt, Shown;
    forall j | t.start <= j < t.end
      ensures Masked(s, sql)[j] == Shown(s[j], j, t)
    {
      TokenCovers(s, t.start, j, sql);
    }
  }

  /** What one token leaves of its own characters. */
  method BlankToken(out: array<char>, kind: Kind, start: nat, end: nat)
    requires start < end <= out.Length
    modifies out
    ensures forall j :: start <= j < end ==> out[j] == Shown(old(out[j]), j, Token(kind, start, end))
    ensures forall j :: 0 <= j < out.Length && !(start <= j < end) ==> out[j] == old(out[j])
  {
    if kind != Code {
      Blank(out, start, end);
      if kind == QuotedName {
        out[start] := 'x';
      }
    }
  }

  method Mask(code: string, sql: bool) returns (out: array<char>)
    ensures fresh(out) && out[..] == Masked(code, sql)
  {
    out := new char[|code|](j requires 0 <= j < |code| => code[j]);
    var i := 0;
    hide Masked, TokenAt, Opens, Shown;
    while i < |code|
      invariant out.Length == |code| && 0 <= i <= |code| && IsBoundary(code, 0, i, sql)
      invariant forall j :: 0 <= j < i ==> out[j] == Masked(code, sql)[j]
      invariant forall j :: i <= j < |code| ==> out[j] == code[j]
    {
      var start := i;
      var kind;
      i, kind := ScanToken(code, start, sql);
      NextBoundary(code, 0, start, sql);
      TokenIsShown(code, sql, Token(kind, start, i));
      BlankToken(out, kind, start, i);
    }
  }

  // ---------------------------------------------------------------- what masking promises

  /** Line structure survives: a position holds a line feed or carriage return before iff it does after. */
  lemma NewlinesStay(s: string, sql: bool, j: nat)
    requires j < |s|
    ensures IsNewline(Masked(s, sql)[j]) <==> IsNewline(s[j])
    ensures IsNewline(s[j]) ==> Masked(s, sql)[j] == s[j]
  {
    var t := Covering(s, 0, j, sql);
  }

  /** A changed position shows a blank, or the x of a quoted name, which a blank or the end of input follows. */
  lemma ChangedPositions(s: string, sql: bool, j: nat)
    requires j < |s| && Masked(s, sql)[j] != s[j]
    ensures Masked(s, sql)[j] == ' ' || (sql && Masked(s, sql)[j] == 'x')
    ensures Masked(s, sql)[j] == 'x' && j + 1 < |s| ==> Masked(s, sql)[j + 1] == ' ' || IsNewline(Masked(s, sql)[j + 1])
  {
    var t := Covering(s, 0, j, sql);
    if Masked(s, sql)[j] == 'x' && j + 1 < |s| {
      SameToken(s, 0, j, j + 1, sql);
    }
  }

  lemma {:induction false} SameToken(s: string, i: nat, j: nat, k: nat, sql: bool)
    requires i <= j <= k < |s| && k < Covering(s, i, j, sql).end
    ensures Covering(s, i, k, sql) == Covering(s, i, j, sql)
    decreases |s| - i
  {
    var t := TokenAt(s, i, sql);
    if j >= t.end {
      SameToken(s, t.end, j, k, sql);
    }
  }

  /** A delimiter in the masked text was already there: its characters cannot come from a blanked token. */
  lemma DelimiterIsOriginal(s: string, sql: bool, i: nat)
    requires sql && i < |s| && Masked(s, sql)[i] == s[i]
    requires DollarLen(Masked(s, sql), i) > 0
    ensures DollarLen(s, i) > 0
  {
    var r := Masked(s, sql);
    hide Masked;
    var d := DollarLen(r, i);
    assert forall k :: i < k < i + d ==> r[k] == '$' || IsTagChar(r[k]);
    forall k | i <= k < i + d
      ensures r[k] == s[k]
    {
      if r[k] != s[k] {
        ChangedPositions(s, sql, k);
      }
    }
    if d > 2 {
      assert r[i + d - 1] == '$' && TagEnd(r, i + 1) == i + d - 1;
      hide DollarLen, TagEnd;
      SameTagEnd(r, s, i + 1, i + d - 1);
    }
  }

  lemma {:induction false} SameTagEnd(r: string, s: string, j: nat, e: nat)
    requires j <= e < |r| && |s| == |r| && s[e] == r[e] && !IsTagChar(r[e])
    requires forall k :: j <= k < e ==> r[k] == s[k] && IsTagChar(r[k])
    ensures TagEnd(s, j) == e
    decreases e - j
  {
    if j < e {
      SameTagEnd(r, s, j + 1, e);
    }
  }

  predicate Clean(s: string, sql: bool) {
    forall j :: 0 <= j < |s| ==> !Opens(s, j, sql)
  }

  predicate IsOpener(c: char) {
    c == '$' || c == '#' || c == '/' || c == '-' || IsQuote(c)
  }

  lemma OpenersOpen(s: string, j: nat, sql: bool)
    requires j < |s| && Opens(s, j, sql)
    ensures IsOpener(s[j])
  {
  }

  lemma BlankedIsNoOpener(c: char, j: nat, t: Token)
    requires t.kind != Code
    ensures !IsOpener(Shown(c, j, t))
  {
  }

  lemma MaskedAt(s: string, sql: bool, j: nat)
    requires j < |s|
    ensures Masked(s, sql)[j] == Shown(s[j], j, Covering(s, 0, j, sql))
  {
    hide Shown, Covering;
  }

  lemma CodeIsShown(c: char, j: nat, t: Token)
    requires t.kind == Code
    ensures Shown(c, j, t) == c
  {
  }

  lemma CodeCoversItself(s: string, sql: bool, j: nat)
    requires j < |s| && Covering(s, 0, j, sql).kind == Code
    ensures !Opens(s, j, sql)
  {
    hide TokenAt, Covering, Opens;
    var t := Covering(s, 0, j, sql);
  }

  lemma CodePositions(s: string, sql: bool, j: nat)
    requires j < |s| && Opens(Masked(s, sql), j, sql)
    ensures Masked(s, sql)[j] == s[j] && !Opens(s, j, sql)
  {
    hide *;
    var t := Covering(s, 0, j, sql);
    MaskedAt(s, sql, j);
    OpenersOpen(Masked(s, sql), j, sql);
    if t.kind != Code {
      BlankedIsNoOpener(s[j], j, t);
    } else {
      CodeIsShown(s[j], j, t);
      CodeCoversItself(s, sql, j);
    }
  }

  /** Nothing in the output starts a literal or a comment at any position. */
  lemma MaskedIsClean(s: string, sql: bool)
    ensures Clean(Masked(s, sql), sql)
  {
    var r := Masked(s, sql);
    hide Masked;
    forall j | 0 <= j < |r|
      ensures !Opens(r, j, sql)
    {
      if Opens(r, j, sql) {
        CodePositions(s, sql, j);
        if j + 1 < |s| && r[j + 1] != s[j + 1] {
          ChangedPositions(s, sql, j + 1);
        }
        if sql && DollarLen(r, j) > 0 {
          DelimiterIsOriginal(s, sql, j);
        }
        hide DollarLen;
        assert false;
      }
    }
  }

  /** In plain words: no quote and no '#', no "//" or "/" before "*", and in SQL mode no "--". */
  lemma MaskedHasNoOpeners(s: string, sql: bool, j: nat)
    requires j < |s|
    ensures var r := Masked(s, sql);
            && !IsQuote(r[j]) && r[j] != '#'
            && (j + 1 < |r| && r[j] == '/' ==> r[j + 1] != '/' && r[j + 1] != '*')
            && (sql && j + 1 < |r| && r[j] == '-' ==> r[j + 1] != '-')
  {
    MaskedIsClean(s, sql);
    assert !Opens(Masked(s, sql), j, sql);
  }

  lemma {:induction false} CleanIsAllCode(s: string, i: nat, j: nat, sql: bool)
    requires Clean(s, sql) && i <= j < |s|
    ensures Covering(s, i, j, sql) == Token(Code, j, j + 1)
    decreases |s| - i
  {
    if i < j {
      CleanIsAllCode(s, i + 1, j, sql);
    }
  }

  /** Masking twice is masking once. */
  lemma MaskIsIdempotent(s: string, sql: bool)
    ensures Masked(Masked(s, sql), sql) == Masked(s, sql)
  {
    var r := Masked(s, sql);
    MaskedIsClean(s, sql);
    forall j | 0 <= j < |r|
      ensures Masked(r, sql)[j] == r[j]
    {
      CleanIsAllCode(r, 0, j, sql);
    }
  }

  /** Code that opens nothing is returned unchanged, and only such code is. */
  lemma UnchangedIffClean(s: string, sql: bool)
    ensures Masked(s, sql) == s <==> Clean(s, sql)
  {
    if Clean(s, sql) {
      forall j | 0 <= j < |s|
        ensures Masked(s, sql)[j] == s[j]
      {
        CleanIsAllCode(s, 0, j, sql);
      }
    }
    MaskedIsClean(s, sql);
  }
}
