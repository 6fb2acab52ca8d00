/** Tokens of minipy. */
module PyTokens {
  import opened Bytes

  datatype Kind =
    | EOF | NEWLINE | INDENT | DEDENT | NAME | NUMBER | STRING
    | PLUS | MINUS | STAR | SLASH | PERCENT | EQ | EQEQ | NE | LT | GT | LE | GE
    | LPAREN | RPAREN | COLON | COMMA | AND | OR | NOT | IF | ELIF | ELSE | WHILE | FOR | IN | DEF | RETURN
    | IMPORT | PASS | TRUE | FALSE | NONE | LBRACK | RBRACK

  /** A token with the text it stands for (names, string literals without their quotes) and its value (numbers). */
  datatype Tok = Tok(kind: Kind, text: string, number: int)

  function Plain(k: Kind): Tok { Tok(k, [], 0) }

  /** An integer as the machine keeps it in 32 bits. */
  function Int32(x: int): (r: int)
    ensures -0x8000_0000 <= r < 0x8000_0000 && (-0x8000_0000 <= x < 0x8000_0000 ==> r == x)
    ensures (x - r) % 0x1_0000_0000 == 0
  {
    (x + 0x8000_0000) % 0x1_0000_0000 - 0x8000_0000
  }

  lemma Int32Step(x: int, k: int, c: int)
    ensures Int32(Int32(x) * k + c) == Int32(x * k + c)
  {
    var q := (x + 0x8000_0000) / 0x1_0000_0000;
    assert Int32(x) == x - q * 0x1_0000_0000;
    Int32Turns(x * k + c, -q * k);
    assert Int32(x) * k + c == x * k + c + (-q * k) * 0x1_0000_0000;
  }

  lemma Int32Turns(x: int, q: int)
    ensures Int32(x + q * 0x1_0000_0000) == Int32(x)
  {
    var y, m := x + 0x8000_0000, 0x1_0000_0000;
    DivModUnique(y + q * m, m, y / m + q, y % m);
  }

  /** The letters of a keyword; nothing for other tokens. */
  function Letters(k: Kind): string {
    match k
    case IF => "if" case IN => "in" case AND => "and" case OR => "or" case NOT => "not" case DEF => "def"
    case FOR => "for" case ELIF => "elif" case ELSE => "else" case TRUE => "True" case NONE => "None"
    case PASS => "pass" case FALSE => "False" case WHILE => "while" case RETURN => "return"
    case IMPORT => "import"
    case _ => []
  }

  /** A keyword or an operator. */
  function Sym(k: Kind): Tok { Tok(k, Letters(k), 0) }

  /** Tokens that make up the block structure. */
  predicate Structural(k: Kind) { k in {EOF, NEWLINE, INDENT, DEDENT} }

  function Step(k: Kind): int { if k == INDENT then 1 else if k == DEDENT then -1 else 0 }

  /** INDENTs less DEDENTs. */
  function Depth(ts: seq<Tok>): int {
    if ts == [] then 0 else Depth(ts[..|ts| - 1]) + Step(ts[|ts| - 1].kind)
  }

  lemma {:induction false} DepthAdd(a: seq<Tok>, b: seq<Tok>)
    ensures Depth(a + b) == Depth(a) + Depth(b)
  {
    if b == [] {
      assert a + b == a;
    } else {
      DepthAdd(a, b[..|b| - 1]);
      assert (a + b)[..|a + b| - 1] == a + b[..|b| - 1];
    }
  }

  /** Never more DEDENTs than INDENTs before them. */
  ghost predicate NeverBelow(ts: seq<Tok>) { forall i :: 0 <= i <= |ts| ==> Depth(ts[..i]) >= 0 }

  /** Where the DEDENTs and EOF at the end begin. */
  function Tail(ts: seq<Tok>): (n: nat)
    ensures n <= |ts| && forall i :: n <= i < |ts| ==> ts[i].kind in {DEDENT, EOF}
    ensures n > 0 ==> ts[n - 1].kind !in {DEDENT, EOF}
  {
    if ts == [] || ts[|ts| - 1].kind !in {DEDENT, EOF} then |ts| else Tail(ts[..|ts| - 1])
  }

  /** The last token before the DEDENTs and EOF at the end is a colon. */
  predicate EndsOpen(ts: seq<Tok>) { Tail(ts) > 0 && ts[Tail(ts) - 1].kind == COLON }

  /**
   * What every lexer output is: one EOF, at the end; balanced; and block structure only at line starts or at the end.
   */
  ghost predicate Lexical(ts: seq<Tok>) {
    && |ts| > 0 && ts[|ts| - 1].kind == EOF && (forall i :: 0 <= i < |ts| - 1 ==> ts[i].kind != EOF)
    && NeverBelow(ts) && Depth(ts) == 0
    && (forall i :: 0 < i < Tail(ts) && ts[i].kind in {INDENT, DEDENT} ==> ts[i - 1].kind in {NEWLINE, DEDENT})
  }

  /**
   * The token arrays of newline-terminated sources: one EOF, at the end; balanced; and block structure only at line
   * starts.
   */
  ghost predicate WellNested(ts: seq<Tok>) {
    && |ts| > 0 && ts[|ts| - 1].kind == EOF && (forall i :: 0 <= i < |ts| - 1 ==> ts[i].kind != EOF)
    && NeverBelow(ts) && Depth(ts) == 0
    && (forall i :: 0 < i < |ts| && ts[i].kind in {EOF, INDENT, DEDENT} ==> ts[i - 1].kind in {NEWLINE, DEDENT})
  }

  lemma NestedLexical(ts: seq<Tok>)
    requires WellNested(ts)
    ensures Lexical(ts) && !EndsOpen(ts)
  {
    hide Depth, NeverBelow;
    assert Tail(ts) < |ts| && ts[Tail(ts)].kind in {DEDENT, EOF};
  }
}
