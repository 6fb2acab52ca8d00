/** The indentation-sensitive lexer: what one round of its loop does, and that a full token array loses nothing. */
module PyLexer {
  import opened PyTokens

  const MAX_INDENT: nat := 32

  datatype Error = Tabs | TooDeep | Inconsistent | Unterminated | Invalid

  predicate Alpha(c: char) { 'a' <= c <= 'z' || 'A' <= c <= 'Z' || c == '_' }

  predicate Digit(c: char) { '0' <= c <= '9' }

  predicate Alnum(c: char) { Alpha(c) || Digit(c) }

  /** Where a run of characters ends. */
  function RunEnd(s: string, p: nat, f: char -> bool): (e: nat)
    requires p <= |s|
    ensures p <= e <= |s|
    ensures forall i :: p <= i < e ==> f(s[i])
    ensures e < |s| ==> !f(s[e])
    decreases |s| - p
  {
    if p < |s| && f(s[p]) then RunEnd(s, p + 1, f) else p
  }

  function Keyword(w: string): (k: Kind)
    ensures !Structural(k)
  {
    if w == "if" then IF else if w == "in" then IN else if w == "and" then AND else if w == "or" then OR
    else if w == "not" then NOT else if w == "def" then DEF else if w == "for" then FOR else if w == "elif" then ELIF
    else if w == "else" then ELSE else if w == "True" then TRUE else if w == "None" then NONE else if w == "pass"
      then PASS
    else if w == "False" then FALSE else if w == "while" then WHILE else if w == "return" then RETURN
    else if w == "import" then IMPORT else NAME
  }

  /** A number, computed in 32 bits. */
  function Value(digits: string): int
    requires forall i :: 0 <= i < |digits| ==> Digit(digits[i])
  {
    if digits == [] then 0
    else Int32(Value(digits[..|digits| - 1]) * 10 + (digits[|digits| - 1] as int - '0' as int))
  }

  function Decimal(digits: string): int
    requires forall i :: 0 <= i < |digits| ==> Digit(digits[i])
  {
    if digits == [] then 0 else Decimal(digits[..|digits| - 1]) * 10 + (digits[|digits| - 1] as int - '0' as int)
  }

  /** What is read is what the digits stand for, wrapped to 32 bits once. */
  lemma {:induction false} ValueDecimal(digits: string)
    requires forall i :: 0 <= i < |digits| ==> Digit(digits[i])
    ensures Value(digits) == Int32(Decimal(digits))
  {
    if digits != [] {
      var front, c := digits[..|digits| - 1], digits[|digits| - 1] as int - '0' as int;
      ValueDecimal(front);
      Int32Step(Decimal(front), 10, c);
    }
  }

  /** Where a string literal's text, begun at `p`, ends; an escape takes the next character along. */
  function StringEnd(s: string, p: nat, q: char): (e: nat)
    requires p <= |s|
    ensures p <= e <= |s|
    decreases |s| - p
  {
    if p == |s| || s[p] == q then p
    else
      var p1 := if s[p] == '\\' then p + 1 else p;
      if p1 == |s| || s[p1] == '\n' then p1 else StringEnd(s, p1 + 1, q)
  }

  /** Operators and punctuation: kind and length. */
  datatype Op = Op(kind: Kind, len: nat) | NoOp

  function OpAt(s: string, p: nat): (r: Op)
    requires p < |s|
    ensures r.Op? ==> !Structural(r.kind) && 1 <= r.len <= 2 && r.len <= |s| - p
    ensures r.Op? && r.len == 2 ==> s[p + 1] in {'=', '/'}
  {
    var two := p + 1 < |s| && s[p + 1] == '=';
    match s[p]
    case '+' => Op(PLUS, 1)
    case '-' => Op(MINUS, 1)
    case '*' => Op(STAR, 1)
    case '/' => Op(SLASH, if p + 1 < |s| && s[p + 1] == '/' then 2 else 1)
    case '%' => Op(PERCENT, 1)
    case '(' => Op(LPAREN, 1)
    case ')' => Op(RPAREN, 1)
    case '[' => Op(LBRACK, 1)
    case ']' => Op(RBRACK, 1)
    case ':' => Op(COLON, 1)
    case ',' => Op(COMMA, 1)
    case '=' => if two then Op(EQEQ, 2) else Op(EQ, 1)
    case '!' => if two then Op(NE, 2) else NoOp
    case '<' => if two then Op(LE, 2) else Op(LT, 1)
    case '>' => if two then Op(GE, 2) else Op(GT, 1)
    case _ => NoOp
  }

  // ---- one round of the loop ----

  /** Position, whether a line starts here, the open indentations, and the tokens so far. */
  datatype LState = LState(pos: nat, start: bool, stack: seq<nat>, toks: seq<Tok>)

  datatype Outcome = Next(s: LState) | Fail(e: Error)

  predicate Sound(src: string, s: LState) { s.pos <= |src| && 0 < |s.stack| <= MAX_INDENT && s.stack[0] == 0 }

  /** Closes indentations deeper than `n`. */
  function Dedents(stack: seq<nat>, toks: seq<Tok>, n: nat): (r: (seq<nat>, seq<Tok>))
    requires |stack| > 0
    ensures 0 < |r.0| <= |stack| && r.0 == stack[..|r.0|]
    ensures |r.0| == 1 || r.0[|r.0| - 1] <= n
  {
    if |stack| > 1 && stack[|stack| - 1] > n then Dedents(stack[..|stack| - 1], toks + [Plain(DEDENT)], n)
      else (stack, toks)
  }

  /** The indentation of a line; blank and comment lines have none. */
  function Indented(src: string, s: LState): (r: Outcome)
    requires s.pos <= |src| && 0 < |s.stack| <= MAX_INDENT
    ensures r.Next? ==>
      s.pos <= r.s.pos <= |src| && 0 < |r.s.stack| <= MAX_INDENT && r.s.stack[0] == s.stack[0] && !r.s.start
  {
    var e := RunEnd(src, s.pos, c => c == ' ');
    var s1 := s.(pos := e, start := false);
    if e == |src| || src[e] == '\n' || src[e] == '#' then Next(s1)
    else if src[e] == '\t' then Fail(Tabs)
    else Adjusted(s1, e - s.pos)
  }

  /** Opens an indentation of `n` or closes those deeper than it. */
  function Adjusted(s: LState, n: nat): (r: Outcome)
    requires 0 < |s.stack| <= MAX_INDENT
    ensures r.Next? ==>
      r.s.pos == s.pos && r.s.start == s.start && 0 < |r.s.stack| <= MAX_INDENT && r.s.stack[0] == s.stack[0]
  {
    var top := s.stack[|s.stack| - 1];
    if n == top then Next(s)
    else if n > top then
      if |s.stack| >= MAX_INDENT then Fail(TooDeep)
      else Next(s.(stack := s.stack + [n], toks := s.toks + [Plain(INDENT)]))
    else
      var (stack, toks) := Dedents(s.stack, s.toks, n);
      if stack[|stack| - 1] != n then Fail(Inconsistent) else Next(s.(stack := stack, toks := toks))
  }

  /** One token, or one stretch of blanks. */
  function Scanned(src: string, s: LState): (r: Outcome)
    requires s.pos < |src|
    ensures r.Next? ==> s.pos <= r.s.pos <= |src| && r.s.stack == s.stack && (s.pos < r.s.pos)
  {
    var c, p := src[s.pos], s.pos;
    if c == ' ' || c == '\t' || c == '\r' then Next(s.(pos := p + 1))
    else if c == '#' then Next(s.(pos := RunEnd(src, p, c => c != '\n')))
    else if c == '\n' then Next(s.(pos := p + 1, start := true, toks := s.toks + [Plain(NEWLINE)]))
    else if Alpha(c) then
      var e := RunEnd(src, p, c => Alnum(c));
      Next(s.(pos := e, toks := s.toks + [Tok(Keyword(src[p..e]), src[p..e], 0)]))
    else if Digit(c) then
      var e := RunEnd(src, p, c => Digit(c));
      Next(s.(pos := e, toks := s.toks + [Tok(NUMBER, src[p..e], Value(src[p..e]))]))
    else if c == '"' || c == '\'' then
      var e := StringEnd(src, p + 1, c);
      if e == |src| || src[e] != c then Fail(Unterminated)
      else Next(s.(pos := e + 1, toks := s.toks + [Tok(STRING, src[p + 1..e], 0)]))
    else
      match OpAt(src, p)
      case NoOp => Fail(Invalid)
      case Op(k, n) => Next(s.(pos := p + n, toks := s.toks + [Plain(k)]))
  }

  /** The rest of the source, and then the DEDENTs still owed and EOF. */
  function Lexed(src: string, s: LState): (r: Outcome)
    requires Sound(src, s)
    decreases |src| - s.pos
  {
    if s.pos == |src| then Next(Closed(s))
    else
      var s1 := if s.start then Indented(src, s) else Next(s);
      if s1.Fail? then s1
      else if s1.s.pos == |src| then Next(Closed(s1.s))
      else
        var s2 := Scanned(src, s1.s);
        if s2.Fail? then s2 else Lexed(src, s2.s)
  }

  function Closed(s: LState): LState
    requires |s.stack| > 0
  {
    s.(stack := s.stack[..1], toks := s.toks + Owed(|s.stack| - 1) + [Plain(EOF)])
  }

  function Owed(n: nat): (ts: seq<Tok>)
    ensures |ts| == n && forall i :: 0 <= i < n ==> ts[i] == Plain(DEDENT)
  {
    seq(n, _ => Plain(DEDENT))
  }

  function Begin(): LState { LState(0, true, [0], []) }

  /** All tokens of a source, without any limit on their number. */
  function Tokens(src: string): Outcome { Lexed(src, Begin()) }

  // ---- what the tokens of a source are like ----

  ghost predicate Increasing(st: seq<nat>) { forall i, j :: 0 <= i < j < |st| ==> st[i] < st[j] }

  /** Block structure only at line starts. */
  ghost predicate AtLineStarts(ts: seq<Tok>) {
    forall i :: 0 < i < |ts| && ts[i].kind in {EOF, INDENT, DEDENT} ==> ts[i - 1].kind in {NEWLINE, DEDENT}
  }

  predicate LineDone(ts: seq<Tok>) { ts == [] || ts[|ts| - 1].kind in {NEWLINE, DEDENT} }

  /** The open indentations are the INDENTs not yet closed. */
  ghost predicate Nested(s: LState) {
    && |s.stack| > 0 && s.stack[0] == 0 && Increasing(s.stack)
    && Depth(s.toks) == |s.stack| - 1 && NeverBelow(s.toks) && AtLineStarts(s.toks)
    && (forall i :: 0 <= i < |s.toks| ==> s.toks[i].kind != EOF)
    && (s.start ==> LineDone(s.toks))
  }

  /** One more token. */
  lemma Pushed(ts: seq<Tok>, t: Tok)
    ensures Depth(ts + [t]) == Depth(ts) + Step(t.kind)
    ensures NeverBelow(ts) && Depth(ts) + Step(t.kind) >= 0 ==> NeverBelow(ts + [t])
    ensures AtLineStarts(ts) && (t.kind in {EOF, INDENT, DEDENT} ==> LineDone(ts)) ==> AtLineStarts(ts + [t])
  {
    assert (ts + [t])[..|ts|] == ts;
    if NeverBelow(ts) && Depth(ts) + Step(t.kind) >= 0 {
      forall i | 0 <= i <= |ts + [t]| ensures Depth((ts + [t])[..i]) >= 0 {
        if i <= |ts| {
          assert (ts + [t])[..i] == ts[..i];
        } else {
          assert (ts + [t])[..i] == ts + [t];
        }
      }
    }
  }

  lemma {:induction false} DedentsNested(s: LState, n: nat)
    requires Nested(s) && LineDone(s.toks)
    ensures var (stack, toks) := Dedents(s.stack, s.toks, n);
      Nested(s.(stack := stack, toks := toks, start := false)) && LineDone(toks)
    decreases |s.stack|
  {
    hide Nested;
    NestedStack(s);
    if |s.stack| > 1 && s.stack[|s.stack| - 1] > n {
      OneDedent(s);
      DedentsNested(s.(stack := s.stack[..|s.stack| - 1], toks := s.toks + [Plain(DEDENT)], start := false), n);
    } else {
      StillNested(s, s.pos);
    }
  }

  lemma NestedStack(s: LState)
    requires Nested(s)
    ensures |s.stack| > 0
  {}

  /** One indentation closed. */
  lemma OneDedent(s: LState)
    requires Nested(s) && LineDone(s.toks) && |s.stack| > 1
    ensures var s' := s.(stack := s.stack[..|s.stack| - 1], toks := s.toks + [Plain(DEDENT)], start := false);
      Nested(s') && LineDone(s'.toks)
  {
    hide Depth, NeverBelow, AtLineStarts;
    Pushed(s.toks, Plain(DEDENT));
  }

  lemma IndentedNested(src: string, s: LState)
    requires Sound(src, s) && Nested(s) && s.start && Indented(src, s).Next?
    ensures Nested(Indented(src, s).s)
  {
    hide Depth, NeverBelow, AtLineStarts;
    var e := RunEnd(src, s.pos, c => c == ' ');
    StillNested(s, e);
    AdjustedNested(s.(pos := e, start := false), e - s.pos);
    hide Adjusted, Nested;
  }

  lemma StillNested(s: LState, e: nat)
    requires Nested(s)
    ensures Nested(s.(pos := e, start := false))
  {
    hide Depth, NeverBelow, AtLineStarts;
  }

  lemma AdjustedNested(s: LState, n: nat)
    requires 0 < |s.stack| <= MAX_INDENT && Nested(s) && LineDone(s.toks) && !s.start
    ensures Adjusted(s, n).Next? ==> Nested(Adjusted(s, n).s)
  {
    hide Depth, NeverBelow, AtLineStarts;
    if n > s.stack[|s.stack| - 1] {
      Pushed(s.toks, Plain(INDENT));
    } else if n < s.stack[|s.stack| - 1] {
      DedentsNested(s, n);
    }
  }

  lemma ScannedNested(src: string, s: LState)
    requires s.pos < |src| && Nested(s) && !s.start && Scanned(src, s).Next?
    ensures Nested(Scanned(src, s).s)
  {
    var r := Scanned(src, s).s;
    ScannedToks(src, s);
    hide Scanned;
    if r.toks != s.toks {
      Pushed(s.toks, r.toks[|s.toks|]);
    }
  }

  /** A round adds at most one token, which is structural only as the NEWLINE that starts a line. */
  lemma ScannedToks(src: string, s: LState)
    requires s.pos < |src| && Scanned(src, s).Next?
    ensures var r := Scanned(src, s).s;
      && r.stack == s.stack
      && (r.toks == s.toks
         || (|r.toks| == |s.toks| + 1 && r.toks == s.toks + [r.toks[|s.toks|]]
            && r.toks[|s.toks|].kind !in {EOF, INDENT, DEDENT}))
      && (r.start && !s.start ==> r.toks != s.toks && r.toks[|s.toks|].kind == NEWLINE)
  {
    hide RunEnd, StringEnd, Value, Keyword, OpAt;
  }

  /** A source that ends with a newline ends at a line start. */
  lemma ScannedEnd(src: string, s: LState)
    requires s.pos < |src| && Scanned(src, s).Next? && src[|src| - 1] == '\n' && Scanned(src, s).s.pos == |src|
    ensures Scanned(src, s).s.start
  {
    hide Value, Keyword, OpAt;
  }

  lemma ClosedNested(s: LState)
    requires Nested(s) && LineDone(s.toks)
    ensures WellNested(Closed(s).toks)
  {
    hide NeverBelow, AtLineStarts, Depth, Increasing;
    var k := |s.stack| - 1;
    OwedNested(s, k);
    var all := s.toks + Owed(k);
    Pushed(all, Plain(EOF));
    AtStarts(all + [Plain(EOF)]);
  }

  lemma AtStarts(ts: seq<Tok>)
    requires AtLineStarts(ts)
    ensures forall i :: 0 < i < |ts| && ts[i].kind in {EOF, INDENT, DEDENT} ==> ts[i - 1].kind in {NEWLINE, DEDENT}
  {
  }

  lemma {:induction false} OwedNested(s: LState, k: nat)
    requires Nested(s) && LineDone(s.toks) && k <= |s.stack| - 1
    ensures var all := s.toks + Owed(k);
      && Depth(all) == |s.stack| - 1 - k && NeverBelow(all) && AtLineStarts(all) && LineDone(all)
      && (forall i :: 0 <= i < |all| ==> all[i].kind != EOF)
  {
    hide NeverBelow, AtLineStarts, Depth, Increasing;
    if k == 0 {
      assert s.toks + Owed(0) == s.toks;
    } else {
      OwedNested(s, k - 1);
      var all := s.toks + Owed(k - 1);
      assert s.toks + Owed(k) == all + [Plain(DEDENT)];
      Pushed(all, Plain(DEDENT));
    }
  }

  lemma {:induction false} LexedNested(src: string, s: LState)
    requires Sound(src, s) && Nested(s) && Lexed(src, s).Next? && src != [] && src[|src| - 1] == '\n'
    requires s.pos == |src| ==> s.start
    ensures WellNested(Lexed(src, s).s.toks)
    decreases |src| - s.pos
  {
    hide Nested, Scanned, Indented, WellNested, RunEnd;
    if s.pos == |src| {
      StartDone(s);
      ClosedNested(s);
    } else {
      var s1 := if s.start then Indented(src, s) else Next(s);
      if s.start {
        IndentedNested(src, s);
        IndentedEnd(src, s);
      }
      ScannedNested(src, s1.s);
      var s2 := Scanned(src, s1.s).s;
      if s2.pos == |src| {
        ScannedEnd(src, s1.s);
      }
      LexedNested(src, s2);
    }
  }

  lemma StartDone(s: LState)
    requires Nested(s) && s.start
    ensures LineDone(s.toks)
  {
  }

  lemma IndentedEnd(src: string, s: LState)
    requires Sound(src, s) && s.pos < |src| && src[|src| - 1] == '\n' && Indented(src, s).Next?
    ensures Indented(src, s).s.pos < |src|
  {
  }

  /** The tokens of a newline-terminated source are well nested: balanced, one EOF, blocks only at line starts. */
  lemma TokensNested(src: string)
    requires Tokens(src).Next? && (src == [] || src[|src| - 1] == '\n')
    ensures WellNested(Tokens(src).s.toks)
  {
    if src == [] {
      ClosedNested(Begin());
    } else {
      LexedNested(src, Begin());
    }
  }

  /** What is still open is closed at the end, wherever that is. */
  lemma ClosedLexical(s: LState)
    requires Nested(s)
    ensures Lexical(Closed(s).toks)
  {
    hide NeverBelow, Depth, Increasing, Tail, AtLineStarts;
    var k := |s.stack| - 1;
    OwedLexical(s, k);
    var all := s.toks + Owed(k);
    Pushed(all, Plain(EOF));
    var more := Owed(k) + [Plain(EOF)];
    assert all + [Plain(EOF)] == s.toks + more;
    StartsBeforeTail(s.toks, more);
  }

  lemma StartsBeforeTail(toks: seq<Tok>, more: seq<Tok>)
    requires AtLineStarts(toks) && forall i :: 0 <= i < |more| ==> more[i].kind in {DEDENT, EOF}
    ensures var ts := toks + more;
      forall i :: 0 < i < Tail(ts) && ts[i].kind in {INDENT, DEDENT} ==> ts[i - 1].kind in {NEWLINE, DEDENT}
  {
    var ts := toks + more;
    InTail(ts, |toks|);
    hide Tail;
    forall i | 0 < i < Tail(ts) && ts[i].kind in {INDENT, DEDENT} ensures ts[i - 1].kind in {NEWLINE, DEDENT} {
      assert toks[i] == ts[i] && toks[i - 1] == ts[i - 1];
    }
  }

  lemma InTail(ts: seq<Tok>, n: nat)
    requires n <= |ts| && forall i :: n <= i < |ts| ==> ts[i].kind in {DEDENT, EOF}
    ensures Tail(ts) <= n
  {
    var t := Tail(ts);
    var last := if t > 0 then ts[t - 1] else Plain(EOF);
  }

  lemma {:induction false} OwedLexical(s: LState, k: nat)
    requires Nested(s) && k <= |s.stack| - 1
    ensures var all := s.toks + Owed(k);
      Depth(all) == |s.stack| - 1 - k && NeverBelow(all) && forall i :: 0 <= i < |all| ==> all[i].kind != EOF
  {
    hide NeverBelow, AtLineStarts, Depth, Increasing;
    if k == 0 {
      assert s.toks + Owed(0) == s.toks;
    } else {
      OwedLexical(s, k - 1);
      var all := s.toks + Owed(k - 1);
      assert s.toks + Owed(k) == all + [Plain(DEDENT)];
      Pushed(all, Plain(DEDENT));
    }
  }

  lemma {:induction false} LexedLexical(src: string, s: LState)
    requires Sound(src, s) && Nested(s) && Lexed(src, s).Next?
    ensures Lexical(Lexed(src, s).s.toks)
    decreases |src| - s.pos
  {
    hide Nested, Scanned, Indented, Lexical, RunEnd;
    if s.pos == |src| {
      ClosedLexical(s);
    } else {
      var s1 := if s.start then Indented(src, s) else Next(s);
      if s.start {
        IndentedNested(src, s);
      }
      if s1.s.pos == |src| {
        ClosedLexical(s1.s);
      } else {
        ScannedNested(src, s1.s);
        LexedLexical(src, Scanned(src, s1.s).s);
      }
    }
  }

  /**
   * The tokens of any source are balanced, with one EOF, and blocks start and end only at line starts or at its end.
   */
  lemma TokensLexical(src: string)
    requires Tokens(src).Next?
    ensures Lexical(Tokens(src).s.toks)
  {
    LexedLexical(src, Begin());
  }

  // ---- the lexer itself ----

  function Take<T>(s: seq<T>, n: nat): seq<T> { if |s| <= n then s else s[..n] }

  class Lexer {
    const src: string
    const tokens: array<Tok>
    const indentStack: array<nat>
    var pos: nat
    var atLineStart: bool
    var indentTop: nat
    var ntokens: nat
    /** Every token so far, those included for which there was no room. */
    ghost var all: seq<Tok>

    ghost predicate Valid()
      reads this, tokens, indentStack
    {
      && pos <= |src| && indentStack.Length == MAX_INDENT && indentTop < MAX_INDENT && indentStack[0] == 0
      && ntokens <= tokens.Length && tokens[..ntokens] == Take(all, tokens.Length)
    }

    ghost function State(): LState
      requires indentStack.Length == MAX_INDENT && indentTop < MAX_INDENT
      reads this, tokens, indentStack
    {
      LState(pos, atLineStart, indentStack[..indentTop + 1], all)
    }

    constructor (text: string, capacity: nat)
      ensures Valid() && src == text && State() == Begin() && tokens.Length == capacity && fresh(tokens)
      ensures fresh(indentStack)
    {
      src, pos, atLineStart, indentTop, ntokens, all := text, 0, true, 0, 0, [];
      tokens, indentStack := new Tok[capacity](_ => Plain(EOF)), new nat[MAX_INDENT](_ => 0);
      new;
      assert indentStack[..1] == [0];
    }

    /** Appends a token if there is room for it. */
    method PushTok(t: Tok) returns (ok: bool)
      requires Valid()
      modifies this`ntokens, this`all, tokens
      ensures Valid() && all == old(all) + [t] && (ok <==> |all| <= tokens.Length)
    {
      all := all + [t];
      if ntokens >= tokens.Length {
        return false;
      }
      tokens[ntokens] := t;
      ntokens := ntokens + 1;
      ok := true;
    }

    /** Advances over a run of characters and tells its length. */
    method SkipRun(f: char -> bool) returns (n: nat)
      requires Valid()
      modifies this`pos
      ensures Valid() && pos == RunEnd(src, old(pos), f) && n == pos - old(pos)
    {
      n := 0;
      while pos < |src| && f(src[pos])
        invariant pos <= |src| && RunEnd(src, pos, f) == RunEnd(src, old(pos), f) && n == pos - old(pos)
        decreases |src| - pos
      {
        pos, n := pos + 1, n + 1;
      }
    }

    /** Opens or closes indentations at the start of a line. */
    method EmitIndent() returns (ok: bool)
      requires Valid() && atLineStart && pos < |src|
      modifies this`pos, this`atLineStart, this`indentTop, this`ntokens, this`all, tokens, indentStack
      ensures Valid() && (ok ==> Indented(src, old(State())) == Next(State()))
      ensures !ok ==> Indented(src, old(State())).Fail? || |Indented(src, old(State())).s.toks| > tokens.Length
    {
      hide Take, Adjusted;
      atLineStart := false;
      var spaces := SkipRun(c => c == ' ');
      if pos == |src| || src[pos] == '\n' || src[pos] == '#' {
        return true;
      }
      if src[pos] == '\t' {
        return false;
      }
      ok := Adjust(spaces);
    }

    /** Opens an indentation of `spaces` or closes those deeper than it. */
    method Adjust(spaces: nat) returns (ok: bool)
      requires Valid()
      modifies this`indentTop, this`ntokens, this`all, tokens, indentStack
      ensures Valid() && (ok ==> Adjusted(old(State()), spaces) == Next(State()))
      ensures !ok ==> Adjusted(old(State()), spaces).Fail? || |Adjusted(old(State()), spaces).s.toks| > tokens.Length
    {
      hide Take;
      ghost var s0 := State();
      var cur := indentStack[indentTop];
      assert cur == s0.stack[|s0.stack| - 1];
      if spaces == cur {
        return true;
      }
      if spaces > cur {
        if indentTop + 1 >= MAX_INDENT {
          return false;
        }
        indentTop := indentTop + 1;
        indentStack[indentTop] := spaces;
        assert indentStack[..indentTop + 1] == s0.stack + [spaces];
        ok := PushTok(Plain(INDENT));
        return;
      }
      ok := CloseDeeper(spaces);
      if !ok {
        return;
      }
      if indentStack[indentTop] != spaces {
        return false;
      }
      ok := true;
    }

    /** One token, or one stretch of blanks; for operators the result of appending is not looked at. */
    method ScanToken() returns (ok: bool)
      requires Valid() && pos < |src| && !atLineStart
      modifies this`pos, this`atLineStart, this`ntokens, this`all, tokens
      ensures Valid() && (ok ==> Scanned(src, old(State())) == Next(State()))
      ensures !ok ==> Scanned(src, old(State())).Fail? || |Scanned(src, old(State())).s.toks| > tokens.Length
    {
      hide Take, Keyword, OpAt, Value, RunEnd, StringEnd, Structural;
      var c := src[pos];
      if c == ' ' || c == '\t' || c == '\r' {
        pos := pos + 1;
        return true;
      }
      if c == '#' {
        var _ := SkipRun(c => c != '\n');
        return true;
      }
      if c == '\n' {
        pos := pos + 1;
        ok := PushTok(Plain(NEWLINE));
        if ok {
          atLineStart := true;
        }
        return;
      }
      var start := pos;
      if Alpha(c) {
        var _ := SkipRun(c => Alnum(c));
        ok := PushTok(Tok(Keyword(src[start..pos]), src[start..pos], 0));
        return;
      }
      if Digit(c) {
        var v := ReadNumber();
        ok := PushTok(Tok(NUMBER, src[start..pos], v));
        return;
      }
      if c == '"' || c == '\'' {
        ok := ReadString(c);
        return;
      }
      ok := PushOp();
    }

    method ReadNumber() returns (v: int)
      requires Valid()
      modifies this`pos
      ensures Valid() && pos == RunEnd(src, old(pos), c => Digit(c)) && v == Value(src[old(pos)..pos])
    {
      v := 0;
      assert src[pos..pos] == [];
      while pos < |src| && Digit(src[pos])
        invariant old(pos) <= pos <= |src| && RunEnd(src, pos, c => Digit(c)) == RunEnd(src, old(pos), c => Digit(c))
        invariant forall i :: 0 <= i < pos - old(pos) ==> Digit(src[old(pos)..pos][i])
        invariant v == Value(src[old(pos)..pos])
        decreases |src| - pos
      {
        assert src[old(pos)..pos + 1] == src[old(pos)..pos] + [src[pos]];
        v := Int32(v * 10 + (src[pos] as int - '0' as int));
        pos := pos + 1;
      }
    }

    method ReadString(q: char) returns (ok: bool)
      requires Valid() && pos < |src| && src[pos] == q && (q == '"' || q == '\'')
      modifies this`pos, this`ntokens, this`all, tokens
      ensures Valid()
      ensures
        var p, e := old(pos), StringEnd(src, old(pos) + 1, q);
        && (ok ==> e < |src| && src[e] == q && pos == e + 1 && all == old(all) + [Tok(STRING, src[p + 1..e], 0)])
        && (!ok ==> e == |src| || src[e] != q || |old(all)| + 1 > tokens.Length)
    {
      hide Take, StringEnd;
      pos := pos + 1;
      var start := pos;
      var closed := SkipString(q);
      if !closed || pos == |src| || src[pos] != q {
        return false;
      }
      pos := pos + 1;
      ok := PushTok(Tok(STRING, src[start..pos - 1], 0));
    }

    /** Advances to the end of a literal's text; fails on a line's end. */
    method SkipString(q: char) returns (ok: bool)
      requires Valid() && (q == '"' || q == '\'')
      modifies this`pos
      ensures Valid() && pos == StringEnd(src, old(pos), q) && (!ok ==> pos == |src| || src[pos] != q)
    {
      ghost var start := pos;
      while pos < |src| && src[pos] != q
        invariant pos <= |src| && StringEnd(src, pos, q) == StringEnd(src, start, q)
        decreases |src| - pos
      {
        if src[pos] == '\\' {
          pos := pos + 1;
          if pos == |src| {
            break;
          }
        }
        if src[pos] == '\n' {
          return false;
        }
        pos := pos + 1;
      }
      ok := true;
    }

    method PushOp() returns (ok: bool)
      requires Valid() && pos < |src|
      modifies this`pos, this`ntokens, this`all, tokens
      ensures Valid() && (ok <==> OpAt(src, old(pos)).Op?)
      ensures ok ==> var op := OpAt(src, old(pos)); pos == old(pos) + op.len && all == old(all) + [Plain(op.kind)]
    {
      hide Take, OpAt;
      match OpAt(src, pos)
      case NoOp =>
        ok := false;
      case Op(k, n) =>
        pos := pos + n;
        var _ := PushTok(Plain(k));
        ok := true;
    }

    /** Closes the indentations deeper than `spaces`. */
    method CloseDeeper(spaces: nat) returns (ok: bool)
      requires Valid()
      modifies this`indentTop, this`ntokens, this`all, tokens
      ensures Valid()
      ensures ok ==> Dedents(old(indentStack[..indentTop + 1]), old(all), spaces) == (indentStack[..indentTop + 1], all)
      ensures !ok ==> |Dedents(old(indentStack[..indentTop + 1]), old(all), spaces).1| > tokens.Length
    {
      hide Take;
      ghost var d := Dedents(indentStack[..indentTop + 1], all, spaces);
      while indentTop > 0 && indentStack[indentTop] > spaces
        invariant Valid() && Dedents(indentStack[..indentTop + 1], all, spaces) == d
      {
        assert indentStack[..indentTop + 1][..indentTop] == indentStack[..indentTop];
        indentTop := indentTop - 1;
        ok := PushTok(Plain(DEDENT));
        if !ok {
          DedentsGrow(indentStack[..indentTop + 1], all, spaces);
          return;
        }
      }
      ok := true;
    }
  }

  /** Lexes a source: succeeds exactly if it has no error and all its tokens fit; then none is missing. */
  method Lex(src: string, capacity: nat) returns (ok: bool, toks: seq<Tok>)
    ensures ok <==> Tokens(src).Next? && |Tokens(src).s.toks| <= capacity
    ensures ok ==> toks == Tokens(src).s.toks
  {
    hide Lexed, Indented, Scanned, Closed;
    toks := [];
    var lx := new Lexer(src, capacity);
    while lx.pos < |src|
      invariant lx.Valid() && lx.src == src && lx.tokens.Length == capacity && fresh(lx) && fresh(lx.tokens)
      invariant fresh(lx.indentStack)
      invariant lx.State().stack[0] == 0 && Lexed(src, lx.State()) == Tokens(src)
      decreases |src| - lx.pos
    {
      ghost var s0 := lx.State();
      LexedRound(src, s0);
      if lx.atLineStart {
        ok := lx.EmitIndent();
        if !ok {
          assert Tokens(src).Next? ==> |Tokens(src).s.toks| > capacity;
          return;
        }
        if lx.pos == |src| {
          break;
        }
      }
      ghost var s1 := lx.State();
      ok := lx.ScanToken();
      if !ok {
        assert Tokens(src).Next? ==> |Tokens(src).s.toks| > capacity;
        return;
      }
    }
    LexedEnd(src, lx.State());
    ok := Finish(lx, src);
    if ok {
      toks := lx.tokens[..lx.ntokens];
    }
  }

  /** One round of the loop, seen from the whole. */
  lemma LexedRound(src: string, s: LState)
    requires Sound(src, s) && s.pos < |src|
    ensures var s1 := if s.start then Indented(src, s) else Next(s);
      && SameOutcome(src, s, s1)
      && (s1.Next? && s1.s.pos < |src| ==> SameOutcome(src, s, Scanned(src, s1.s)))
  {
    var s1 := if s.start then Indented(src, s) else Next(s);
    if s1.Next? {
      LexedGrows(src, s1.s);
      if s1.s.pos < |src| && Scanned(src, s1.s).Next? {
        LexedGrows(src, Scanned(src, s1.s).s);
      }
    }
    hide Indented, Scanned, Closed;
  }

  lemma LexedEnd(src: string, s: LState)
    requires Sound(src, s) && s.pos == |src|
    ensures Lexed(src, s) == Next(Closed(s))
  {
  }

  /** Going on from `r` comes to what the whole comes to, with at least its tokens. */
  predicate SameOutcome(src: string, s: LState, r: Outcome)
    requires Sound(src, s)
  {
    if r.Fail? then Lexed(src, s).Fail?
    else Sound(src, r.s) && Lexed(src, s) == Lexed(src, r.s) && LexedLonger(src, r.s, Lexed(src, s))
  }

  predicate LexedLonger(src: string, s: LState, r: Outcome) { r.Next? ==> |r.s.toks| >= |s.toks| }

  /** Tokens only come to it. */
  lemma {:induction false} LexedGrows(src: string, s: LState)
    requires Sound(src, s)
    ensures LexedLonger(src, s, Lexed(src, s))
    decreases |src| - s.pos, if s.start then 1 else 0
  {
    hide Indented, Scanned;
    if s.pos < |src| {
      var s1 := if s.start then Indented(src, s) else Next(s);
      if s1.Next? {
        if s.start {
          IndentedGrows(src, s);
        }
        if s1.s.pos < |src| && Scanned(src, s1.s).Next? {
          ScannedToks(src, s1.s);
          LexedGrows(src, Scanned(src, s1.s).s);
        }
      }
    }
  }

  lemma IndentedGrows(src: string, s: LState)
    requires Sound(src, s) && Indented(src, s).Next?
    ensures |Indented(src, s).s.toks| >= |s.toks|
  {
    var n := RunEnd(src, s.pos, c => c == ' ') - s.pos;
    DedentsGrow(s.stack, s.toks, n);
    hide Dedents, RunEnd;
  }

  /** Closes what is still open and appends EOF. */
  method Finish(lx: Lexer, ghost src: string) returns (ok: bool)
    requires lx.Valid()
    modifies lx`indentTop, lx`ntokens, lx`all, lx.tokens
    ensures lx.Valid()
    ensures ok <==> |Closed(old(lx.State())).toks| <= lx.tokens.Length
    ensures ok ==> lx.tokens[..lx.ntokens] == Closed(old(lx.State())).toks
  {
    ghost var s0, k := lx.State(), 0;
    while lx.indentTop > 0
      invariant lx.Valid() && k == |s0.stack| - 1 - lx.indentTop && lx.all == s0.toks + Owed(k)
    {
      lx.indentTop := lx.indentTop - 1;
      ok := lx.PushTok(Plain(DEDENT));
      k := k + 1;
      if !ok {
        return;
      }
    }
    ok := lx.PushTok(Plain(EOF));
  }

  lemma {:induction false} DedentsGrow(stack: seq<nat>, toks: seq<Tok>, n: nat)
    requires |stack| > 0
    ensures |Dedents(stack, toks, n).1| >= |toks|
    decreases |stack|
  {
    if |stack| > 1 && stack[|stack| - 1] > n {
      DedentsGrow(stack[..|stack| - 1], toks + [Plain(DEDENT)], n);
    }
  }
}
