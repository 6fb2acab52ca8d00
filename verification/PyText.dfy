/** Programs as text: lexing and parsing what was written gives the tree that was written. */
module PyText {
  import opened Wrappers
  import opened PyTokens
  import opened PyGrammar
  import opened PyPrint
  import opened PyShow
  import opened PyLexer

  // ---- words ----

  /** How an operator is spelt. */
  function Spelt(k: Kind): string {
    match k
    case PLUS => "+" case MINUS => "-" case STAR => "*" case SLASH => "/" case PERCENT => "%" case EQ => "="
    case EQEQ => "==" case NE => "!=" case LT => "<" case GT => ">" case LE => "<=" case GE => ">="
    case LPAREN => "(" case RPAREN => ")" case LBRACK => "[" case RBRACK => "]" case COLON => ":"
    case COMMA => ","
    case _ => Letters(k)
  }

  /** A token as it is written. */
  function Word(t: Tok): string {
    match t.kind
    case NAME => t.text
    case NUMBER => t.text
    case STRING => "\"" + t.text + "\""
    case k => Spelt(k)
  }

  predicate Identifier(s: string) {
    |s| > 0 && Alpha(s[0]) && (forall i :: 0 <= i < |s| ==> Alnum(s[i])) && Keyword(s) == NAME
  }

  /** Text that a closing quote ends where it stands: no bare quote and no newline, and no backslash at the end. */
  predicate Quotable(s: string) {
    s == [] || (s[0] == '\\' && |s| > 1 && s[1] != '\n' && Quotable(s[2..]))
      || (s[0] !in {'\\', '"', '\n'} && Quotable(s[1..]))
  }

  /** A token the lexer can deliver. */
  predicate Lexeme(t: Tok) {
    match t.kind
    case NAME => Identifier(t.text) && t.number == 0
    case NUMBER => |t.text| > 0 && (forall i :: 0 <= i < |t.text| ==> Digit(t.text[i])) && t.number == Value(t.text)
    case STRING => Quotable(t.text) && t.number == 0
    case k => !Structural(k) && t == Sym(k)
  }

  /** `w` stands at `p`. */
  predicate Reads(src: string, p: nat, w: string) { p + |w| <= |src| && src[p..p + |w|] == w }

  lemma ReadsSplit(src: string, p: nat, a: string, b: string)
    requires Reads(src, p, a + b)
    ensures Reads(src, p, a) && Reads(src, p + |a|, b)
  {
    var w := src[p..p + |a + b|];
    assert w[..|a|] == a && w[|a|..] == b;
  }

  lemma {:induction false} RunOf(s: string, p: nat, e: nat, f: char -> bool)
    requires p <= e < |s| && (forall i :: p <= i < e ==> f(s[i])) && !f(s[e])
    ensures RunEnd(s, p, f) == e
    decreases e - p
  {
    if p < e {
      RunOf(s, p + 1, e, f);
    }
  }

  lemma {:induction false} QuoteEnds(s: string, p: nat, w: string)
    requires Quotable(w) && Reads(s, p, w + "\"")
    ensures StringEnd(s, p, '"') == p + |w|
    decreases |w|
  {
    hide StringEnd;
    Spread(s, p, w, '"');
    if w != [] {
      var n := if w[0] == '\\' then 2 else 1;
      assert w + "\"" == w[..n] + (w[n..] + "\"");
      ReadsSplit(s, p, w[..n], w[n..] + "\"");
      QuoteStep(s, p, n);
      QuoteEnds(s, p + n, w[n..]);
    } else {
      QuoteHere(s, p);
    }
  }

  /** One character of a string literal, or an escape and the character it takes along. */
  lemma QuoteStep(s: string, p: nat, n: nat)
    requires p + n <= |s| && p < |s|
    requires if s[p] == '\\' then n == 2 && s[p + 1] != '\n' else n == 1 && s[p] !in {'"', '\n'}
    ensures StringEnd(s, p, '"') == StringEnd(s, p + n, '"')
  {
  }

  lemma QuoteHere(s: string, p: nat)
    requires p < |s| && s[p] == '"'
    ensures StringEnd(s, p, '"') == p
  {
  }

  /** What stands at a place, character by character. */
  lemma Spread(src: string, p: nat, w: string, c: char)
    requires Reads(src, p, w + [c])
    ensures p + |w| < |src| && src[p..p + |w|] == w && src[p + |w|] == c
    ensures forall i :: 0 <= i < |w| ==> src[p + i] == w[i]
  {
    assert src[p..p + |w| + 1] == w + [c];
    assert src[p..p + |w|] == src[p..p + |w| + 1][..|w|];
    assert forall i :: 0 <= i < |w| + 1 ==> src[p + i] == (w + [c])[i];
  }

  lemma KeywordLetters(k: Kind)
    requires Letters(k) != []
    ensures Alpha(Letters(k)[0]) && forall i :: 0 <= i < |Letters(k)| ==> Alnum(Letters(k)[i])
  {
  }

  lemma KeywordKind(k: Kind)
    requires Letters(k) != []
    ensures Keyword(Letters(k)) == k
  {
    hide Alpha, Alnum;
    match k
    case IF => case IN => case AND => case OR => case NOT => case DEF => case FOR => case ELIF => case ELSE =>
    case TRUE => case NONE => case PASS => case FALSE => case WHILE => case RETURN => case IMPORT =>
    case _ =>
  }

  /** The lexer has read `w` as the token `t`. */
  predicate Took(src: string, s: LState, w: string, t: Tok)
    requires s.pos < |src|
  {
    Scanned(src, s) == Next(s.(pos := s.pos + |w|, toks := s.toks + [t]))
  }

  /** A run of letters and digits is a name or a keyword. */
  lemma LettersScan(src: string, s: LState, w: string)
    requires |w| > 0 && Alpha(w[0]) && (forall i :: 0 <= i < |w| ==> Alnum(w[i])) && Reads(src, s.pos, w + " ")
    ensures s.pos < |src| && Took(src, s, w, Tok(Keyword(w), w, 0))
  {
    hide Keyword, OpAt, StringEnd, Value;
    Spread(src, s.pos, w, ' ');
    RunOf(src, s.pos, s.pos + |w|, c => Alnum(c));
  }

  lemma DigitsScan(src: string, s: LState, w: string)
    requires |w| > 0 && (forall i :: 0 <= i < |w| ==> Digit(w[i])) && Reads(src, s.pos, w + " ")
    ensures s.pos < |src| && Took(src, s, w, Tok(NUMBER, w, Value(w)))
  {
    hide Keyword, OpAt, StringEnd, Value, Digit, Alpha;
    Spread(src, s.pos, w, ' ');
    Letterless(w[0]);
    RunOf(src, s.pos, s.pos + |w|, c => Digit(c));
  }

  lemma Letterless(c: char)
    ensures Digit(c) ==> c !in {' ', '\t', '\r', '#', '\n'} && !Alpha(c)
    ensures !Digit(' ')
  {
  }

  lemma QuotedScan(src: string, s: LState, w: string)
    requires Quotable(w) && Reads(src, s.pos, "\"" + w + "\"")
    ensures s.pos < |src| && Took(src, s, "\"" + w + "\"", Tok(STRING, w, 0))
  {
    hide Keyword, OpAt, StringEnd, Value, Quotable, RunEnd;
    assert "\"" + w + "\"" == "\"" + (w + "\"");
    ReadsSplit(src, s.pos, "\"", w + "\"");
    Spread(src, s.pos, "", '"');
    Spread(src, s.pos + 1, w, '"');
    QuoteEnds(src, s.pos + 1, w);
  }

  lemma OpScan(src: string, s: LState, k: Kind)
    requires !Structural(k) && k !in {NAME, NUMBER, STRING} && Letters(k) == [] && Reads(src, s.pos, Spelt(k) + " ")
    ensures s.pos < |src| && Took(src, s, Spelt(k), Plain(k))
  {
    hide Keyword, StringEnd, Value, RunEnd, OpAt;
    OpIs(src, s.pos, k);
  }

  lemma OpIs(src: string, p: nat, k: Kind)
    requires !Structural(k) && k !in {NAME, NUMBER, STRING} && Letters(k) == [] && Reads(src, p, Spelt(k) + " ")
    ensures p < |src| && OpAt(src, p) == Op(k, |Spelt(k)|)
    ensures src[p] !in {' ', '\t', '\r', '#', '\n', '"', '\''} && !Alpha(src[p]) && !Digit(src[p])
  {
    Spread(src, p, Spelt(k), ' ');
  }

  /** A word and the blank behind it. */
  lemma WordScan(src: string, s: LState, t: Tok)
    requires Lexeme(t) && Reads(src, s.pos, Word(t) + " ")
    ensures s.pos < |src| && |Word(t)| > 0 && Took(src, s, Word(t), t)
  {
    hide Keyword, StringEnd, Value, RunEnd, Scanned, Took, OpAt;
    match t.kind
    case NAME => LettersScan(src, s, t.text);
    case NUMBER => DigitsScan(src, s, t.text);
    case STRING =>
      ReadsSplit(src, s.pos, Word(t), " ");
      QuotedScan(src, s, t.text);
    case k =>
      if Letters(k) == [] {
        OpScan(src, s, k);
      } else {
        KeywordLetters(k);
        KeywordKind(k);
        LettersScan(src, s, Letters(k));
      }
  }

  // ---- lines ----

  /** The tokens of a line and how deep it is indented. */
  datatype Line = Line(depth: nat, toks: seq<Tok>)

  const TAB: nat := 4

  function Blanks(n: nat): (s: string)
    ensures |s| == n && forall i :: 0 <= i < n ==> s[i] == ' '
  {
    seq(n, _ => ' ')
  }

  function Words(ts: seq<Tok>): string { if ts == [] then "" else Word(ts[0]) + " " + Words(ts[1..]) }

  function LineText(l: Line): string { Blanks(TAB * l.depth) + Words(l.toks) + "\n" }

  function Text(ls: seq<Line>): string { if ls == [] then "" else LineText(ls[0]) + Text(ls[1..]) }

  /** The indentations open at a depth. */
  function Stack(n: nat): (st: seq<nat>)
    ensures |st| == n + 1 && forall i :: 0 <= i <= n ==> st[i] == TAB * i
  {
    seq(n + 1, i => TAB * i)
  }

  /** The block structure between a line and the next. */
  function Lead(from: nat, to: nat): seq<Tok> { if to > from then [Plain(INDENT)] else Owed(from - to) }

  /** The tokens of lines that follow one of depth `cur`. */
  function Tokened(ls: seq<Line>, cur: nat): seq<Tok> {
    if ls == [] then Owed(cur) + [Plain(EOF)]
      else Lead(cur, ls[0].depth) + ls[0].toks + [EOL] + Tokened(ls[1..], ls[0].depth)
  }

  predicate Lexemes(ts: seq<Tok>) { forall i :: 0 <= i < |ts| ==> Lexeme(ts[i]) }

  /** Lines that go one level deeper at a time, and not too deep. */
  predicate Laid(ls: seq<Line>, cur: nat) {
    ls == [] || (ls[0].depth <= cur + 1 && ls[0].depth < MAX_INDENT && ls[0].toks != [] && Lexemes(ls[0].toks)
      && Laid(ls[1..], ls[0].depth))
  }

  lemma WordFirst(t: Tok)
    requires Lexeme(t)
    ensures |Word(t)| > 0 && Word(t)[0] !in {' ', '\t', '\n', '#'}
  {
    hide Keyword, Value, Quotable;
    if t.kind !in {NAME, NUMBER, STRING} && Letters(t.kind) != [] {
      KeywordLetters(t.kind);
    }
  }

  /** A state within a line goes on with the next token. */
  lemma LexedStep(src: string, s: LState, s': LState)
    requires Sound(src, s) && !s.start && s.pos < |src| && Scanned(src, s) == Next(s')
    ensures Sound(src, s') && Lexed(src, s) == Lexed(src, s')
  {
    hide Scanned;
  }

  lemma {:induction false} WordsLexed(src: string, s: LState, ts: seq<Tok>)
    requires Sound(src, s) && !s.start && Lexemes(ts) && Reads(src, s.pos, Words(ts))
    ensures var s' := s.(pos := s.pos + |Words(ts)|, toks := s.toks + ts);
      Sound(src, s') && Lexed(src, s) == Lexed(src, s')
    decreases |ts|
  {
    hide Scanned, Lexed, Lexeme, Word;
    if ts == [] {
      assert s.toks + ts == s.toks;
    } else {
      var w, rest := Word(ts[0]), Words(ts[1..]);
      ReadsSplit(src, s.pos, w + " ", rest);
      WordScan(src, s, ts[0]);
      var s1 := s.(pos := s.pos + |w|, toks := s.toks + [ts[0]]);
      LexedStep(src, s, s1);
      ReadsSplit(src, s.pos, w, " ");
      Spread(src, s1.pos, "", ' ');
      BlankScan(src, s1);
      var s2 := s1.(pos := s1.pos + 1);
      LexedStep(src, s1, s2);
      WordsLexed(src, s2, ts[1..]);
      assert s2.toks + ts[1..] == s.toks + ts;
    }
  }

  lemma BlankScan(src: string, s: LState)
    requires s.pos < |src| && src[s.pos] == ' '
    ensures Scanned(src, s) == Next(s.(pos := s.pos + 1))
  {
  }

  lemma NewlineScan(src: string, s: LState)
    requires s.pos < |src| && src[s.pos] == '\n'
    ensures Scanned(src, s) == Next(s.(pos := s.pos + 1, start := true, toks := s.toks + [EOL]))
  {
  }

  lemma {:induction false} DedentsTo(n: nat, d: nat, toks: seq<Tok>)
    requires d <= n
    ensures Dedents(Stack(n), toks, TAB * d) == (Stack(d), toks + Owed(n - d))
    decreases n - d
  {
    if n == d {
      assert toks + Owed(0) == toks;
    } else {
      assert Stack(n)[..n] == Stack(n - 1);
      DedentsTo(n - 1, d, toks + [Plain(DEDENT)]);
      assert toks + [Plain(DEDENT)] + Owed(n - 1 - d) == toks + Owed(n - d);
    }
  }

  lemma AdjustedTo(s: LState, cur: nat, d: nat)
    requires s.stack == Stack(cur) && d <= cur + 1 && d < MAX_INDENT && cur < MAX_INDENT
    ensures Adjusted(s, TAB * d) == Next(s.(stack := Stack(d), toks := s.toks + Lead(cur, d)))
  {
    hide Dedents;
    if d == cur {
      assert s.toks + Owed(0) == s.toks;
    } else if d > cur {
      assert Stack(cur) + [TAB * d] == Stack(d);
    } else {
      DedentsTo(cur, d, s.toks);
    }
  }

  /** The start of a line. */
  lemma LineStart(src: string, s: LState, cur: nat, l: Line)
    requires Sound(src, s) && s.start && s.stack == Stack(cur) && cur < MAX_INDENT && l.depth <= cur + 1
    requires l.depth < MAX_INDENT
    requires l.toks != [] && Lexemes(l.toks) && Reads(src, s.pos, Blanks(TAB * l.depth) + Words(l.toks))
    ensures var s' :=
      s.(pos := s.pos + TAB * l.depth, start := false, stack := Stack(l.depth), toks := s.toks + Lead(cur, l.depth));
      Sound(src, s') && Lexed(src, s) == Lexed(src, s') && Reads(src, s'.pos, Words(l.toks))
  {
    hide Scanned, Lexed, Lexeme, Word, Adjusted, Lead;
    var n := TAB * l.depth;
    ReadsSplit(src, s.pos, Blanks(n), Words(l.toks));
    WordFirst(l.toks[0]);
    var e := s.pos + n;
    assert src[e] == Words(l.toks)[0] by { assert src[e..e + |Words(l.toks)|][0] == src[e]; }
    assert forall i :: s.pos <= i < e ==> src[i] == src[s.pos..e][i - s.pos];
    RunOf(src, s.pos, e, c => c == ' ');
    AdjustedTo(s.(pos := e, start := false), cur, l.depth);
    IndentThen(src, s, s.(pos := e, start := false, stack := Stack(l.depth), toks := s.toks + Lead(cur, l.depth)));
  }

  lemma IndentThen(src: string, s: LState, s': LState)
    requires Sound(src, s) && s.start && s.pos < |src| && Indented(src, s) == Next(s') && s'.pos < |src|
    requires Sound(src, s')
    ensures Lexed(src, s) == Lexed(src, s')
  {
    hide Scanned, Indented;
  }

  /** A whole line. */
  lemma LineLexed(src: string, s: LState, cur: nat, l: Line)
    requires Sound(src, s) && s.start && s.stack == Stack(cur) && cur < MAX_INDENT && l.depth <= cur + 1
    requires l.depth < MAX_INDENT
    requires l.toks != [] && Lexemes(l.toks) && Reads(src, s.pos, LineText(l))
    ensures var s' :=
      LState(s.pos + |LineText(l)|, true, Stack(l.depth), s.toks + (Lead(cur, l.depth) + l.toks + [EOL]));
      Sound(src, s') && Lexed(src, s) == Lexed(src, s')
  {
    hide Scanned, Lexed, Lexeme, Word, Lead, Words, Lexemes;
    var body := Blanks(TAB * l.depth) + Words(l.toks);
    ReadsSplit(src, s.pos, body, "\n");
    LineStart(src, s, cur, l);
    var s1 :=
      s.(pos := s.pos + TAB * l.depth, start := false, stack := Stack(l.depth), toks := s.toks + Lead(cur, l.depth));
    WordsLexed(src, s1, l.toks);
    var s2 := s1.(pos := s1.pos + |Words(l.toks)|, toks := s1.toks + l.toks);
    Spread(src, s2.pos, "", '\n');
    NewlineScan(src, s2);
    LexedStep(src, s2, s2.(pos := s2.pos + 1, start := true, toks := s2.toks + [EOL]));
    assert s2.toks + [EOL] == s.toks + (Lead(cur, l.depth) + l.toks + [EOL]);
  }

  /** All lines up to the end. */
  lemma {:induction false} TextLexed(src: string, s: LState, ls: seq<Line>, cur: nat)
    requires Sound(src, s) && s.start && s.stack == Stack(cur) && cur < MAX_INDENT && Laid(ls, cur)
    requires Reads(src, s.pos, Text(ls)) && s.pos + |Text(ls)| == |src|
    ensures Lexed(src, s).Next? && Lexed(src, s).s.toks == s.toks + Tokened(ls, cur)
    decreases |ls|
  {
    hide Scanned, Lexeme, Lexemes, LineText, Lead, Indented;
    if ls == [] {
      assert s.toks + Owed(cur) + [Plain(EOF)] == s.toks + (Owed(cur) + [Plain(EOF)]);
    } else {
      hide Lexed;
      var l := ls[0];
      ReadsSplit(src, s.pos, LineText(l), Text(ls[1..]));
      LineLexed(src, s, cur, l);
      var lead := Lead(cur, l.depth) + l.toks + [EOL];
      var s' := LState(s.pos + |LineText(l)|, true, Stack(l.depth), s.toks + lead);
      TextLexed(src, s', ls[1..], l.depth);
      assert s.toks + lead + Tokened(ls[1..], l.depth) == s.toks + (lead + Tokened(ls[1..], l.depth));
    }
  }

  // ---- programs as lines ----

  function ExprToks(e: Expr): seq<Tok> { Shown(e, OR_LEVEL) }

  function BlockLines(b: seq<Stmt>, n: nat): (ls: seq<Line>)
    decreases b, 2
  {
    if b == [] then [] else Lines(b[0], n) + BlockLines(b[1..], n)
  }

  /** The line that opens a block, and the block. */
  function Opened(head: seq<Tok>, b: seq<Stmt>, n: nat): (ls: seq<Line>)
    decreases b, 3
  {
    [Line(n, head + [Plain(COLON)])] + BlockLines(b, n + 1)
  }

  /** What stands before the colon. */
  function HeadOf(s: Stmt): seq<Tok>
    requires s.While? || s.For? || s.Def?
  {
    match s
    case While(c, _) => [Sym(WHILE)] + ExprToks(c)
    case For(t, o, _) => [Sym(FOR), NameTok(t), Sym(IN)] + ExprToks(o)
    case Def(f, ps, _) => [Sym(DEF), NameTok(f), Plain(LPAREN)] + ShowParams(ps) + [Plain(RPAREN)]
  }

  lemma HeadAndBody(s: Stmt)
    requires s.While? || s.For? || s.Def?
    ensures Show(s) == HeadOf(s) + ShowSuite(s.body)
  {
    hide Shown, ShowSuite, ShowParams;
  }

  function Lines(s: Stmt, n: nat): (ls: seq<Line>)
    decreases s, 1
  {
    match s
    case If(_, _, _) => IfLines(IF, s, n)
    case While(_, b) => Opened(HeadOf(s), b, n)
    case For(_, _, b) => Opened(HeadOf(s), b, n)
    case Def(_, _, b) => Opened(HeadOf(s), b, n)
    case _ => [Line(n, Show(s)[..|Show(s)| - 1])]
  }

  function IfLines(k: Kind, s: Stmt, n: nat): (ls: seq<Line>)
    requires s.If?
    decreases s, 0
  {
    Opened([Sym(k)] + ExprToks(s.cond), s.thenPart, n) + ElseLines(s.elsePart, n)
  }

  function ElseLines(e: Else, n: nat): (ls: seq<Line>)
    decreases e, 1
  {
    match e
    case NoElse => []
    case Elif(s) => if s.If? then IfLines(ELIF, s, n) else []
    case ElseBlock(b) => Opened([Sym(ELSE)], b, n)
  }

  /** Every body has a statement. */
  predicate Filled(s: Stmt) {
    match s
    case If(_, b, e) => FilledBlock(b) && FilledElse(e)
    case While(_, b) => FilledBlock(b)
    case For(_, _, b) => FilledBlock(b)
    case Def(_, _, b) => FilledBlock(b)
    case _ => true
  }

  predicate FilledElse(e: Else) {
    match e
    case NoElse => true
    case Elif(s) => s.If? && Filled(s)
    case ElseBlock(b) => FilledBlock(b)
  }

  predicate FilledBlock(b: seq<Stmt>) { b != [] && forall i :: 0 <= i < |b| ==> Filled(b[i]) }

  /** No deeper than `n`. */
  predicate Shallow(ls: seq<Line>, n: nat) { ls == [] || ls[0].depth <= n }

  lemma LeadDown(ls: seq<Line>, n: nat)
    requires Shallow(ls, n)
    ensures Tokened(ls, n + 1) == [Plain(DEDENT)] + Tokened(ls, n)
  {
    hide Tokened, Owed;
    if ls == [] {
      TokenedNone(n);
      TokenedNone(n + 1);
      OwedMore(n);
    } else {
      TokenedFirst(ls, n);
      TokenedFirst(ls, n + 1);
      OwedMore(n - ls[0].depth);
    }
  }

  lemma OwedMore(n: nat)
    ensures Owed(n + 1) == [Plain(DEDENT)] + Owed(n)
  {
  }

  lemma TokenedNone(cur: nat)
    ensures Tokened([], cur) == Owed(cur) + [Plain(EOF)]
  {
  }

  lemma TokenedFirst(ls: seq<Line>, cur: nat)
    requires ls != []
    ensures Tokened(ls, cur) == Lead(cur, ls[0].depth) + (ls[0].toks + [EOL] + Tokened(ls[1..], ls[0].depth))
  {
  }

  lemma LeadUp(ls: seq<Line>, n: nat)
    requires ls != [] && ls[0].depth == n + 1
    ensures Tokened(ls, n) == [Plain(INDENT)] + Tokened(ls, n + 1)
  {
    hide Tokened;
    TokenedFirst(ls, n);
    TokenedFirst(ls, n + 1);
    assert Owed(0) == [];
  }

  /** A line at the depth where the text is. */
  lemma LineHere(l: Line, ls: seq<Line>)
    ensures Tokened([l] + ls, l.depth) == l.toks + [EOL] + Tokened(ls, l.depth)
  {
    assert ([l] + ls)[1..] == ls && Owed(0) == [];
    assert Lead(l.depth, l.depth) + l.toks + [EOL] == l.toks + [EOL];
  }

  lemma LinesFirst(s: Stmt, n: nat)
    ensures |Lines(s, n)| > 0 && Lines(s, n)[0].depth == n
  {
    hide BlockLines, Show, IfLines;
    if s.If? {
      IfFirst(IF, s, n);
    }
  }

  lemma BlockFirst(b: seq<Stmt>, n: nat, rest: seq<Line>)
    requires b != []
    ensures |BlockLines(b, n)| > 0 && (BlockLines(b, n) + rest)[0].depth == n
  {
    LinesFirst(b[0], n);
    hide Lines;
  }

  lemma IfFirst(k: Kind, s: Stmt, n: nat)
    requires s.If?
    ensures |IfLines(k, s, n)| > 0 && IfLines(k, s, n)[0].depth == n
  {
    hide BlockLines, ElseLines, Shown;
  }

  // ---- the tokens of a program's lines ----

  lemma {:induction false} BlockTokened(b: seq<Stmt>, n: nat, rest: seq<Line>)
    requires (forall i :: 0 <= i < |b| ==> Filled(b[i])) && Shallow(rest, n)
    ensures Tokened(BlockLines(b, n) + rest, n) == ShowBlock(b) + Tokened(rest, n)
    decreases b, 2
  {
    hide Tokened, Lines, Show, Filled;
    if b == [] {
      assert [] + rest == rest;
    } else {
      var more := BlockLines(b[1..], n) + rest;
      if |b| > 1 {
        BlockFirst(b[1..], n, rest);
      } else {
        assert more == rest;
      }
      assert BlockLines(b, n) + rest == Lines(b[0], n) + more;
      LinesTokened(b[0], n, more);
      BlockTokened(b[1..], n, rest);
      assert Show(b[0]) + (ShowBlock(b[1..]) + Tokened(rest, n)) == ShowBlock(b) + Tokened(rest, n);
    }
  }

  lemma {:induction false} OpenedTokened(head: seq<Tok>, b: seq<Stmt>, n: nat, rest: seq<Line>)
    requires FilledBlock(b) && Shallow(rest, n)
    ensures Tokened(Opened(head, b, n) + rest, n) == head + (ShowSuite(b) + Tokened(rest, n))
    decreases b, 3
  {
    hide Tokened, BlockLines, ShowBlock, Filled;
    var l, more := Line(n, head + [Plain(COLON)]), BlockLines(b, n + 1) + rest;
    assert Opened(head, b, n) + rest == [l] + more;
    LineHere(l, more);
    BlockFirst(b, n + 1, rest);
    LeadUp(more, n);
    BlockTokened(b, n + 1, rest);
    LeadDown(rest, n);
    assert head + [Plain(COLON)] + [EOL] + ([Plain(INDENT)] + (ShowBlock(b) + ([Plain(DEDENT)] + Tokened(rest, n))))
        == head + ([Plain(COLON), EOL, Plain(INDENT)] + (ShowBlock(b) + [Plain(DEDENT)]) + Tokened(rest, n));
  }

  lemma {:induction false} LinesTokened(s: Stmt, n: nat, rest: seq<Line>)
    requires Filled(s) && Shallow(rest, n)
    ensures Tokened(Lines(s, n) + rest, n) == Show(s) + Tokened(rest, n)
    decreases s, 1
  {
    hide Tokened, Opened, HeadOf, ShowSuite, IfLines, ShowIf, FilledBlock, Show;
    var t := Tokened(rest, n);
    match s
    case If(_, _, _) =>
      IfTokened(IF, s, n, rest);
      assert Show(s) == [Sym(IF)] + ShowIf(s) by { IfShown(s); }
      assert [Sym(IF)] + (ShowIf(s) + t) == Show(s) + t;
    case While(_, _) => BodiedTokened(s, n, rest);
    case For(_, _, _) => BodiedTokened(s, n, rest);
    case Def(_, _, _) => BodiedTokened(s, n, rest);
    case _ =>
      OneLined(s);
      LineHere(Line(n, Show(s)[..|Show(s)| - 1]), rest);
  }

  lemma IfShown(s: Stmt)
    requires s.If?
    ensures Show(s) == [Sym(IF)] + ShowIf(s)
  {
    hide ShowIf;
  }

  lemma {:induction false} BodiedTokened(s: Stmt, n: nat, rest: seq<Line>)
    requires (s.While? || s.For? || s.Def?) && FilledBlock(s.body) && Shallow(rest, n)
    ensures Tokened(Opened(HeadOf(s), s.body, n) + rest, n) == Show(s) + Tokened(rest, n)
    decreases s, 0
  {
    hide Tokened, Opened, HeadOf, ShowSuite, FilledBlock, Show;
    OpenedTokened(HeadOf(s), s.body, n, rest);
    HeadAndBody(s);
    assert HeadOf(s) + (ShowSuite(s.body) + Tokened(rest, n)) == Show(s) + Tokened(rest, n);
  }

  /** A statement without a block is one line. */
  lemma OneLined(s: Stmt)
    requires s.Pass? || s.Return? || s.Import? || s.Assign? || s.ExprStmt?
    ensures |Show(s)| > 1 && Show(s) == Show(s)[..|Show(s)| - 1] + [EOL]
  {
    hide Shown;
  }

  lemma {:induction false} IfTokened(k: Kind, s: Stmt, n: nat, rest: seq<Line>)
    requires s.If? && Filled(s) && Shallow(rest, n)
    ensures Tokened(IfLines(k, s, n) + rest, n) == [Sym(k)] + (ShowIf(s) + Tokened(rest, n))
    decreases s, 0
  {
    hide Tokened, Opened, Shown, ShowSuite, ElseLines, ShowElse, FilledBlock;
    var more, head := ElseLines(s.elsePart, n) + rest, [Sym(k)] + ExprToks(s.cond);
    ElseShallow(s.elsePart, n, rest);
    assert IfLines(k, s, n) + rest == Opened(head, s.thenPart, n) + more;
    OpenedTokened(head, s.thenPart, n, more);
    ElseTokened(s.elsePart, n, rest);
    assert head + (ShowSuite(s.thenPart) + (ShowElse(s.elsePart) + Tokened(rest, n))) == [Sym(k)]
      + (ShowIf(s) + Tokened(rest, n));
  }

  lemma ElseShallow(e: Else, n: nat, rest: seq<Line>)
    requires FilledElse(e) && Shallow(rest, n)
    ensures Shallow(ElseLines(e, n) + rest, n)
  {
    hide IfLines, BlockLines, Filled, FilledBlock;
    match e
    case NoElse => assert [] + rest == rest;
    case Elif(s) => IfFirst(ELIF, s, n);
    case ElseBlock(b) =>
  }

  lemma {:induction false} ElseTokened(e: Else, n: nat, rest: seq<Line>)
    requires FilledElse(e) && Shallow(rest, n)
    ensures Tokened(ElseLines(e, n) + rest, n) == ShowElse(e) + Tokened(rest, n)
    decreases e, 1
  {
    hide Tokened, Opened, Shown, ShowSuite, IfLines, ShowIf, Filled, FilledBlock;
    var t := Tokened(rest, n);
    match e
    case NoElse => assert [] + rest == rest;
    case Elif(s) =>
      IfTokened(ELIF, s, n, rest);
      assert [Sym(ELIF)] + (ShowIf(s) + t) == ShowElse(e) + t;
    case ElseBlock(b) =>
      OpenedTokened([Sym(ELSE)], b, n, rest);
      assert [Sym(ELSE)] + (ShowSuite(b) + t) == ShowElse(e) + t;
  }

  // ---- what can be written ----

  /** Names are identifiers and numbers are not negative. */
  predicate Writable(e: Expr) {
    match e
    case Int(v) => 0 <= v == Int32(v)
    case Name(id) => Identifier(id)
    case List(items) => forall i :: 0 <= i < |items| ==> Writable(items[i])
    case Call(f, args) => Identifier(f) && forall i :: 0 <= i < |args| ==> Writable(args[i])
    case Index(a, i) => Writable(a) && Writable(i)
    case Unary(_, x) => Writable(x)
    case Binop(_, l, r) => Writable(l) && Writable(r)
    case Compare(_, l, r) => Writable(l) && Writable(r)
    case _ => true
  }

  lemma {:induction false} QuotableEscaped(s: string)
    ensures Quotable(Escaped(s))
  {
    if s != [] {
      QuotableEscaped(s[1..]);
      var t := Escaped(s[1..]);
      if s[0] == '\\' || s[0] == '\n' || s[0] == '"' {
        assert Escaped(s)[2..] == t;
      } else {
        assert Escaped(s)[1..] == t;
      }
    }
  }

  lemma {:induction false} ValueDigits(v: nat)
    ensures forall i :: 0 <= i < |Digits(v)| ==> Digit(Digits(v)[i])
    ensures Value(Digits(v)) == Int32(v)
  {
    hide Value, Digits, DigitOf, Int32;
    var d := [DigitOf(v % 10)];
    DigitsSplit(v);
    Int32Step(v / 10, 10, v % 10);
    Int32Small(v % 10);
    if v < 10 {
      assert [] + d == d;
      ValueLast([], d[0]);
    } else {
      ValueDigits(v / 10);
      ValueLast(Digits(v / 10), d[0]);
    }
  }

  lemma Int32Small(v: nat)
    requires v < 10
    ensures Int32(v) == v
  {
  }

  lemma DigitsSplit(v: nat)
    ensures Digits(v) == (if v < 10 then [] else Digits(v / 10)) + [DigitOf(v % 10)]
  {
  }

  lemma ValueLast(w: string, d: char)
    requires Digit(d) && forall i :: 0 <= i < |w| ==> Digit(w[i])
    ensures Value(w + [d]) == Int32(Value(w) * 10 + (d as int - '0' as int)) && Value([]) == 0
  {
    assert (w + [d])[..|w|] == w;
  }

  lemma LexemesAdd(a: seq<Tok>, b: seq<Tok>)
    requires Lexemes(a) && Lexemes(b)
    ensures Lexemes(a + b)
  {
    hide Lexeme;
  }

  lemma SymLexeme(k: Kind)
    requires !Structural(k) && k !in {NAME, NUMBER, STRING}
    ensures Lexemes([Sym(k)])
  {
  }

  lemma PlainLexeme(k: Kind)
    requires k in {LPAREN, RPAREN, LBRACK, RBRACK, COMMA, COLON, EQ}
    ensures Lexemes([Plain(k)])
  {
  }

  lemma NameLexeme(id: string)
    requires Identifier(id)
    ensures Lexemes([Tok(NAME, id, 0)])
  {
    hide Identifier;
  }

  lemma LiteralLexeme(e: Expr)
    requires Writable(e) && (e.Int? || e.Str? || e.Bool? || e.NoneLit? || e.Name?)
    ensures Lexemes(Body(e))
  {
    hide Identifier, Sym, Quotable, Digit, Value, Digits, Lexeme;
    match e
    case Int(v) =>
      ValueDigits(v);
      NumberLexeme(Digits(v), v);
    case Str(s) =>
      QuotableEscaped(s);
      StringLexeme(Escaped(s));
    case Bool(b) => SymLexeme(if b then TRUE else FALSE);
    case NoneLit => SymLexeme(NONE);
    case Name(id) => NameLexeme(id);
  }

  lemma NumberLexeme(w: string, v: int)
    requires |w| > 0 && (forall i :: 0 <= i < |w| ==> Digit(w[i])) && v == Value(w)
    ensures Lexemes([Tok(NUMBER, w, v)])
  {
    hide Digit, Value;
  }

  lemma StringLexeme(w: string)
    requires Quotable(w)
    ensures Lexemes([Tok(STRING, w, 0)])
  {
    hide Quotable;
  }

  lemma {:induction false} ShownLexemes(e: Expr, level: nat)
    requires Good(e) && Writable(e)
    ensures Lexemes(Shown(e, level))
    decreases e, 2
  {
    hide Lexemes, Body, Good, Writable;
    BodyLexemes(e);
    PlainLexeme(LPAREN);
    PlainLexeme(RPAREN);
    LexemesAdd([Plain(LPAREN)], Body(e));
    LexemesAdd([Plain(LPAREN)] + Body(e), [Plain(RPAREN)]);
  }

  lemma {:induction false} BodyLexemes(e: Expr)
    requires Good(e) && Writable(e)
    ensures Lexemes(Body(e))
    decreases e, 1
  {
    hide Lexemes, Shown, ShownItems, Identifier, Sym, Letters;
    match e
    case List(items) =>
      PlainLexeme(LBRACK);
      PlainLexeme(RBRACK);
      ItemsLexemes(items);
      Around([Plain(LBRACK)], ShownItems(items), [Plain(RBRACK)]);
    case Call(f, args) =>
      NameLexeme(f);
      PlainLexeme(LPAREN);
      PlainLexeme(RPAREN);
      ItemsLexemes(args);
      assert [Tok(NAME, f, 0), Plain(LPAREN)] == [Tok(NAME, f, 0)] + [Plain(LPAREN)];
      LexemesAdd([Tok(NAME, f, 0)], [Plain(LPAREN)]);
      Around([Tok(NAME, f, 0), Plain(LPAREN)], ShownItems(args), [Plain(RPAREN)]);
    case Index(a, i) =>
      PlainLexeme(LBRACK);
      PlainLexeme(RBRACK);
      ShownLexemes(a, PRIMARY_LEVEL);
      ShownLexemes(i, OR_LEVEL);
      Around(Shown(a, PRIMARY_LEVEL), [Plain(LBRACK)], Shown(i, OR_LEVEL));
      LexemesAdd(Shown(a, PRIMARY_LEVEL) + [Plain(LBRACK)] + Shown(i, OR_LEVEL), [Plain(RBRACK)]);
    case Unary(op, x) =>
      SymLexeme(op);
      ShownLexemes(x, UNARY_LEVEL);
      LexemesAdd([Sym(op)], Shown(x, UNARY_LEVEL));
    case Binop(op, l, r) =>
      SymLexeme(op);
      ShownLexemes(l, LevelOf(e));
      ShownLexemes(r, LevelOf(e) + 1);
      Around(Shown(l, LevelOf(e)), [Sym(op)], Shown(r, LevelOf(e) + 1));
    case Compare(op, l, r) =>
      SymLexeme(op);
      ShownLexemes(l, ARITH_LEVEL);
      ShownLexemes(r, ARITH_LEVEL);
      Around(Shown(l, ARITH_LEVEL), [Sym(op)], Shown(r, ARITH_LEVEL));
    case _ => LiteralLexeme(e);
  }

  lemma Around(a: seq<Tok>, b: seq<Tok>, c: seq<Tok>)
    requires Lexemes(a) && Lexemes(b) && Lexemes(c)
    ensures Lexemes(a + b + c)
  {
    hide Lexeme;
  }

  lemma {:induction false} ItemsLexemes(items: seq<Expr>)
    requires forall i :: 0 <= i < |items| ==> Good(items[i]) && Writable(items[i])
    ensures Lexemes(ShownItems(items))
    decreases items, 3
  {
    hide Lexeme, Good, Writable, Shown;
    if |items| > 0 {
      ShownLexemes(items[0], OR_LEVEL);
      if |items| > 1 {
        PlainLexeme(COMMA);
        ItemsLexemes(items[1..]);
        Around(Shown(items[0], OR_LEVEL), [Plain(COMMA)], ShownItems(items[1..]));
      }
    }
  }

  /**
   * A statement at depth `n` whose names are identifiers, whose numbers are not negative and which is not nested too
   * deep.
   */
  predicate WritableStmt(s: Stmt, n: nat)
    decreases s
  {
    n < MAX_INDENT &&
    match s
    case Return(v) => v.Some? ==> Writable(v.value)
    case If(c, b, e) => Writable(c) && WritableBlock(b, n + 1) && WritableElse(e, n)
    case While(c, b) => Writable(c) && WritableBlock(b, n + 1)
    case For(t, o, b) => Identifier(t) && Writable(o) && WritableBlock(b, n + 1)
    case Def(f, ps, b) => Identifier(f) && (forall i :: 0 <= i < |ps| ==> Identifier(ps[i])) && WritableBlock(b, n + 1)
    case Import(m) => Identifier(m)
    case Assign(x, v) => Identifier(x) && Writable(v)
    case ExprStmt(e) => Writable(e)
    case Pass => true
  }

  predicate WritableElse(e: Else, n: nat)
    decreases e
  {
    match e
    case NoElse => true
    case Elif(s) => WritableStmt(s, n)
    case ElseBlock(b) => WritableBlock(b, n + 1)
  }

  predicate WritableBlock(b: seq<Stmt>, n: nat)
    decreases b
  {
    forall i :: 0 <= i < |b| ==> WritableStmt(b[i], n)
  }

  lemma LaidFrom(ls: seq<Line>, n: nat, cur: nat)
    requires Laid(ls, n) && Shallow(ls, n) && n <= cur + 1
    ensures Laid(ls, cur)
  {
    hide Lexemes;
  }

  lemma LaidLine(l: Line, ls: seq<Line>, cur: nat)
    requires l.depth <= cur + 1 && l.depth < MAX_INDENT && l.toks != [] && Lexemes(l.toks) && Laid(ls, l.depth)
    ensures Laid([l] + ls, cur)
  {
    hide Lexemes;
    assert ([l] + ls)[1..] == ls;
  }

  lemma {:induction false} BlockLaid(b: seq<Stmt>, n: nat, rest: seq<Line>, cur: nat)
    requires GoodBlock(b) && (forall i :: 0 <= i < |b| ==> Filled(b[i])) && WritableBlock(b, n)
    requires Shallow(rest, n) && Laid(rest, n) && n <= cur + 1
    ensures Laid(BlockLines(b, n) + rest, cur)
    decreases b, 2
  {
    hide Laid, Lines, GoodStmt, Filled, WritableStmt;
    if b == [] {
      assert [] + rest == rest;
      LaidFrom(rest, n, cur);
    } else {
      var more := BlockLines(b[1..], n) + rest;
      if |b| > 1 {
        BlockFirst(b[1..], n, rest);
      } else {
        assert more == rest;
      }
      assert BlockLines(b, n) + rest == Lines(b[0], n) + more;
      BlockLaid(b[1..], n, rest, n);
      LinesLaid(b[0], n, more, cur);
    }
  }

  lemma {:induction false} OpenedLaid(head: seq<Tok>, b: seq<Stmt>, n: nat, rest: seq<Line>, cur: nat)
    requires Lexemes(head) && GoodBlock(b) && FilledBlock(b) && WritableBlock(b, n + 1) && n < MAX_INDENT
    requires Shallow(rest, n) && Laid(rest, n) && n <= cur + 1
    ensures Laid(Opened(head, b, n) + rest, cur)
    decreases b, 3
  {
    hide Laid, BlockLines, GoodBlock, Filled, WritableBlock, Lexeme, Lexemes;
    var l, more := Line(n, head + [Plain(COLON)]), BlockLines(b, n + 1) + rest;
    assert Opened(head, b, n) + rest == [l] + more;
    PlainLexeme(COLON);
    LexemesAdd(head, [Plain(COLON)]);
    LaidFrom(rest, n, n + 1);
    BlockLaid(b, n + 1, rest, n);
    LaidLine(l, more, cur);
  }

  lemma {:induction false} ParamsLexemes(ps: seq<string>)
    requires forall i :: 0 <= i < |ps| ==> Identifier(ps[i])
    ensures Lexemes(ShowParams(ps))
  {
    hide Identifier, Lexeme;
    if ps != [] {
      NameLexeme(ps[0]);
      if |ps| > 1 {
        PlainLexeme(COMMA);
        ParamsLexemes(ps[1..]);
        LexemesAdd([NameTok(ps[0])], [Plain(COMMA)]);
        assert [NameTok(ps[0])] + [Plain(COMMA)] == [NameTok(ps[0]), Plain(COMMA)];
        LexemesAdd([NameTok(ps[0]), Plain(COMMA)], ShowParams(ps[1..]));
      }
    }
  }

  lemma HeadLexemes(s: Stmt, n: nat)
    requires (s.While? || s.For? || s.Def?) && GoodStmt(s) && WritableStmt(s, n)
    ensures Lexemes(HeadOf(s))
  {
    hide Identifier, Lexemes, Good, Writable, GoodBlock, WritableBlock, Shown, ShowParams, Lexeme;
    match s
    case While(c, _) =>
      SymLexeme(WHILE);
      ShownLexemes(c, OR_LEVEL);
      LexemesAdd([Sym(WHILE)], ExprToks(c));
    case For(t, o, _) =>
      SymLexeme(FOR);
      NameLexeme(t);
      SymLexeme(IN);
      ShownLexemes(o, OR_LEVEL);
      Around([Sym(FOR)], [NameTok(t)], [Sym(IN)]);
      assert [Sym(FOR)] + [NameTok(t)] + [Sym(IN)] == [Sym(FOR), NameTok(t), Sym(IN)];
      LexemesAdd([Sym(FOR), NameTok(t), Sym(IN)], ExprToks(o));
    case Def(f, ps, _) =>
      SymLexeme(DEF);
      NameLexeme(f);
      PlainLexeme(LPAREN);
      PlainLexeme(RPAREN);
      ParamsLexemes(ps);
      Around([Sym(DEF)], [NameTok(f)], [Plain(LPAREN)]);
      assert [Sym(DEF)] + [NameTok(f)] + [Plain(LPAREN)] == [Sym(DEF), NameTok(f), Plain(LPAREN)];
      Around([Sym(DEF), NameTok(f), Plain(LPAREN)], ShowParams(ps), [Plain(RPAREN)]);
  }

  /** A statement without a block is written with lexemes. */
  lemma OneLexemes(s: Stmt, n: nat)
    requires s.Pass? || s.Return? || s.Import? || s.Assign? || s.ExprStmt?
    requires GoodStmt(s) && WritableStmt(s, n)
    ensures |Show(s)| > 1 && Lexemes(Show(s)[..|Show(s)| - 1])
  {
    hide Identifier, Lexemes, Good, Writable, Shown, Lexeme;
    var w := Show(s)[..|Show(s)| - 1];
    match s
    case Pass =>
      SymLexeme(PASS);
      assert w == [Sym(PASS)];
    case Import(m) =>
      SymLexeme(IMPORT);
      NameLexeme(m);
      LexemesAdd([Sym(IMPORT)], [NameTok(m)]);
      assert w == [Sym(IMPORT)] + [NameTok(m)];
    case Return(v) =>
      SymLexeme(RETURN);
      if v.None? {
        assert w == [Sym(RETURN)];
      } else {
        ShownLexemes(v.value, OR_LEVEL);
        LexemesAdd([Sym(RETURN)], ExprToks(v.value));
        assert w == [Sym(RETURN)] + ExprToks(v.value);
      }
    case Assign(x, v) =>
      NameLexeme(x);
      PlainLexeme(EQ);
      ShownLexemes(v, OR_LEVEL);
      Around([NameTok(x)], [Plain(EQ)], ExprToks(v));
      assert w == [NameTok(x)] + [Plain(EQ)] + ExprToks(v);
    case ExprStmt(e) =>
      ShownLexemes(e, OR_LEVEL);
      assert w == ExprToks(e);
  }

  lemma {:induction false} LinesLaid(s: Stmt, n: nat, rest: seq<Line>, cur: nat)
    requires GoodStmt(s) && Filled(s) && WritableStmt(s, n) && Shallow(rest, n) && Laid(rest, n) && n <= cur + 1
    ensures Laid(Lines(s, n) + rest, cur)
    decreases s, 1
  {
    hide Laid, Opened, HeadOf, IfLines, GoodBlock, FilledBlock, WritableBlock, Show, Good, Writable, Identifier,
         Lexemes;
    match s
    case If(_, _, _) => IfLaid(IF, s, n, rest, cur);
    case While(_, b) =>
      HeadLexemes(s, n);
      OpenedLaid(HeadOf(s), b, n, rest, cur);
    case For(_, _, b) =>
      HeadLexemes(s, n);
      OpenedLaid(HeadOf(s), b, n, rest, cur);
    case Def(_, _, b) =>
      HeadLexemes(s, n);
      OpenedLaid(HeadOf(s), b, n, rest, cur);
    case _ =>
      OneLexemes(s, n);
      LaidLine(Line(n, Show(s)[..|Show(s)| - 1]), rest, cur);
  }

  lemma {:induction false} IfLaid(k: Kind, s: Stmt, n: nat, rest: seq<Line>, cur: nat)
    requires s.If? && k in {IF, ELIF} && GoodStmt(s) && Filled(s) && WritableStmt(s, n)
    requires Shallow(rest, n) && Laid(rest, n) && n <= cur + 1
    ensures Laid(IfLines(k, s, n) + rest, cur)
    decreases s, 0
  {
    hide Laid, Opened, ElseLines, GoodBlock, GoodElse, FilledBlock, FilledElse, WritableBlock, WritableElse, Shown,
         Good, Writable, Lexemes;
    var more, head := ElseLines(s.elsePart, n) + rest, [Sym(k)] + ExprToks(s.cond);
    SymLexeme(k);
    ShownLexemes(s.cond, OR_LEVEL);
    LexemesAdd([Sym(k)], ExprToks(s.cond));
    ElseShallow(s.elsePart, n, rest);
    ElseLaid(s.elsePart, n, rest);
    assert IfLines(k, s, n) + rest == Opened(head, s.thenPart, n) + more;
    OpenedLaid(head, s.thenPart, n, more, cur);
  }

  lemma {:induction false} ElseLaid(e: Else, n: nat, rest: seq<Line>)
    requires GoodElse(e) && FilledElse(e) && WritableElse(e, n) && Shallow(rest, n) && Laid(rest, n) && n < MAX_INDENT
    ensures Laid(ElseLines(e, n) + rest, n)
    decreases e, 1
  {
    hide Laid, Opened, IfLines, GoodBlock, GoodStmt, FilledBlock, Filled, WritableBlock, WritableStmt, Lexemes;
    match e
    case NoElse => assert [] + rest == rest;
    case Elif(s) => IfLaid(ELIF, s, n, rest, n);
    case ElseBlock(b) =>
      SymLexeme(ELSE);
      OpenedLaid([Sym(ELSE)], b, n, rest, n);
  }

  // ---- the round trip ----

  /** A program as text. */
  function Source(b: seq<Stmt>): string { Text(BlockLines(b, 0)) }

  /** Lexing the text of a program gives the tokens it is shown as. */
  lemma SourceLexed(b: seq<Stmt>)
    requires GoodBlock(b) && (forall i :: 0 <= i < |b| ==> Filled(b[i])) && WritableBlock(b, 0)
    ensures Tokens(Source(b)).Next? && Tokens(Source(b)).s.toks == ShowBlock(b) + [Plain(EOF)]
  {
    hide Text, BlockLines, ShowBlock, Lexed, GoodBlock, WritableBlock, Filled;
    var ls, src := BlockLines(b, 0), Source(b);
    assert ls + [] == ls && Stack(0) == [0] && Owed(0) == [];
    BlockTokened(b, 0, []);
    BlockLaid(b, 0, [], 0);
    assert src[0..|src|] == src;
    TextLexed(src, Begin(), ls, 0);
    assert [] + Tokened(ls, 0) == Tokened(ls, 0);
  }

  /** Writing a program, lexing the text and parsing the tokens gives the program back. */
  lemma SourceParsedBack(b: seq<Stmt>)
    requires GoodBlock(b) && (forall i :: 0 <= i < |b| ==> Filled(b[i])) && WritableBlock(b, 0)
    ensures Tokens(Source(b)).Next?
    ensures var ts := Tokens(Source(b)).s.toks;
      |ts| > 0 && ts[|ts| - 1].kind == EOF && Module(ts, [], 0) == Ok(b, |ts| - 1)
  {
    hide Source, ShowBlock, Tokens, GoodBlock, WritableBlock, Filled, Module;
    SourceLexed(b);
    ModuleShown(b);
  }
}
