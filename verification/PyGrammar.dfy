/** Syntax trees of minipy and the grammar: what parsing a token array from a position gives. */
module PyGrammar {
  import opened Wrappers
  import opened PyTokens

  datatype Expr =
    | Int(v: int)
    | Str(s: string)
    | Bool(b: bool)
    | NoneLit
    | Name(id: string)
    | List(items: seq<Expr>)
    | Call(f: string, args: seq<Expr>)
    | Index(of: Expr, at: Expr)
    | Unary(op: Kind, e: Expr)
    | Binop(op: Kind, l: Expr, r: Expr)
    | Compare(op: Kind, l: Expr, r: Expr)

  datatype Stmt =
    | Pass
    | Return(value: Option<Expr>)
    | If(cond: Expr, thenPart: seq<Stmt>, elsePart: Else)
    | While(cond: Expr, body: seq<Stmt>)
    | For(target: string, over: Expr, body: seq<Stmt>)
    | Def(name: string, params: seq<string>, body: seq<Stmt>)
    | Import(name: string)
    | Assign(name: string, rhs: Expr)
    | ExprStmt(e: Expr)

  /** What follows an `if`: nothing, an `elif` (itself an `if`), or an `else` block. */
  datatype Else = NoElse | Elif(s: Stmt) | ElseBlock(b: seq<Stmt>)

  /** Why parsing failed; Silent is a failure without a message. */
  datatype Error = Silent | ExpectedExpr | ExpectedRBrack | ExpectedRParen | ExpectedLParen | ExpectedColon
                 | ExpectedIndent | ExpectedDedent | ExpectedName | ExpectedIn

  /** Errors with a message other than that a dedent is missing. */
  predicate Plausible(e: Error) { e != Silent && e != ExpectedDedent }

  /** A result and the position behind it, or a failure and the position it was met at. */
  datatype Res<+T> = Ok(v: T, pos: nat) | Err(e: Error, pos: nat)

  /** Token arrays that end with EOF. */
  type Toks = ts: seq<Tok> | |ts| > 0 && ts[|ts| - 1].kind == EOF witness [Plain(EOF)]

  // ---- expressions ----

  const OR_LEVEL: nat := 0
  const AND_LEVEL: nat := 1
  const COMPARE_LEVEL: nat := 2
  const ARITH_LEVEL: nat := 3
  const TERM_LEVEL: nat := 4
  const UNARY_LEVEL: nat := 5
  const PRIMARY_LEVEL: nat := 6

  /** The operators that join operands at a level, each taking its left operand along. */
  predicate JoinsAt(k: Kind, level: nat) {
    || (level == OR_LEVEL && k == OR)
    || (level == AND_LEVEL && k == AND)
    || (level == COMPARE_LEVEL && k in {EQEQ, NE, LT, GT, LE, GE})
    || (level == ARITH_LEVEL && k in {PLUS, MINUS})
    || (level == TERM_LEVEL && k in {STAR, SLASH, PERCENT})
  }

  predicate Prefix(k: Kind) { k in {NOT, MINUS, PLUS} }

  /** `\n`, `\t` and `\r` stand for the control characters; behind a backslash any other character stands for itself. */
  function Unescaped(s: string): string {
    if s == [] then []
    else if s[0] == '\\' && |s| > 1 then
      [if s[1] == 'n' then '\n' else if s[1] == 't' then '\t' else if s[1] == 'r' then '\r'
       else s[1]] + Unescaped(s[2..])
    else [s[0]] + Unescaped(s[1..])
  }

  /** An expression of a level: levels bind tighter from `or` to primary. */
  function Level(ts: Toks, p: nat, level: nat): (r: Res<Expr>)
    requires level <= PRIMARY_LEVEL && p < |ts|
    ensures p <= r.pos < |ts| && (r.Ok? ==> p < r.pos)
    ensures r.Err? ==> Plausible(r.e)
    decreases |ts| - p, 2, PRIMARY_LEVEL - level
  {
    if level == PRIMARY_LEVEL then
      var a := Atom(ts, p);
      if a.Err? then a else Indexed(ts, a.v, a.pos)
    else if level == UNARY_LEVEL then
      if Prefix(ts[p].kind) then
        var a := Level(ts, p + 1, UNARY_LEVEL);
        if a.Err? then a else Ok(Unary(ts[p].kind, a.v), a.pos)
      else Level(ts, p, PRIMARY_LEVEL)
    else
      var a := Level(ts, p, level + 1);
      if a.Err? then a else Joined(ts, a.v, a.pos, level)
  }

  /** The operands that follow a first one at a level; of comparisons at most one follows. */
  function Joined(ts: Toks, left: Expr, p: nat, level: nat): (r: Res<Expr>)
    requires level < UNARY_LEVEL && p < |ts|
    ensures p <= r.pos < |ts|
    ensures r.Err? ==> Plausible(r.e)
    decreases |ts| - p, 0, 0
  {
    if !JoinsAt(ts[p].kind, level) then Ok(left, p)
    else
      var b := Level(ts, p + 1, level + 1);
      if b.Err? then b
      else if level == COMPARE_LEVEL then Ok(Compare(ts[p].kind, left, b.v), b.pos)
      else Joined(ts, Binop(ts[p].kind, left, b.v), b.pos, level)
  }

  /** The subscripts that follow a primary. */
  function Indexed(ts: Toks, a: Expr, p: nat): (r: Res<Expr>)
    requires p < |ts|
    ensures p <= r.pos < |ts|
    ensures r.Err? ==> Plausible(r.e)
    decreases |ts| - p, 0, 0
  {
    if ts[p].kind != LBRACK then Ok(a, p)
    else
      var i := Level(ts, p + 1, OR_LEVEL);
      if i.Err? then i
      else if ts[i.pos].kind != RBRACK then Err(ExpectedRBrack, i.pos)
      else Indexed(ts, Index(a, i.v), i.pos + 1)
  }

  function Atom(ts: Toks, p: nat): (r: Res<Expr>)
    requires p < |ts|
    ensures p <= r.pos < |ts| && (r.Ok? ==> p < r.pos)
    ensures r.Err? ==> Plausible(r.e)
    decreases |ts| - p, 1, 0
  {
    var k := ts[p].kind;
    if Literal(ts[p]).Some? then Ok(Literal(ts[p]).value, p + 1)
    else if k == LBRACK then Bracketed(ts, p)
    else if k == NAME then (if ts[p + 1].kind != LPAREN then Ok(Name(ts[p].text), p + 1) else Called(ts, p))
    else if k == LPAREN then Parenthesised(ts, p)
    else Err(ExpectedExpr, p)
  }

  /** What a token that is an expression by itself stands for. */
  function Literal(t: Tok): (e: Option<Expr>)
    ensures e.Some? <==> t.kind in {NUMBER, STRING, TRUE, FALSE, NONE}
  {
    match t.kind
    case NUMBER => Some(Int(t.number))
    case STRING => Some(Str(Unescaped(t.text)))
    case TRUE => Some(Bool(true))
    case FALSE => Some(Bool(false))
    case NONE => Some(NoneLit)
    case _ => None
  }

  function Bracketed(ts: Toks, p: nat): (r: Res<Expr>)
    requires p < |ts| && ts[p].kind == LBRACK
    ensures p <= r.pos < |ts| && (r.Ok? ==> p < r.pos)
    ensures r.Err? ==> Plausible(r.e)
    decreases |ts| - p, 0, 0
  {
    var l := Listed(ts, p + 1, RBRACK);
    if l.Err? then Err(l.e, l.pos)
    else if ts[l.pos].kind != RBRACK then Err(ExpectedRBrack, l.pos)
    else Ok(List(l.v), l.pos + 1)
  }

  function Called(ts: Toks, p: nat): (r: Res<Expr>)
    requires p < |ts| && ts[p].kind == NAME && ts[p + 1].kind == LPAREN
    ensures p <= r.pos < |ts| && (r.Ok? ==> p < r.pos)
    ensures r.Err? ==> Plausible(r.e)
    decreases |ts| - p, 0, 0
  {
    var l := Listed(ts, p + 2, RPAREN);
    if l.Err? then Err(l.e, l.pos)
    else if ts[l.pos].kind != RPAREN then Err(ExpectedRParen, l.pos)
    else Ok(Call(ts[p].text, l.v), l.pos + 1)
  }

  function Parenthesised(ts: Toks, p: nat): (r: Res<Expr>)
    requires p < |ts| && ts[p].kind == LPAREN
    ensures p <= r.pos < |ts| && (r.Ok? ==> p < r.pos)
    ensures r.Err? ==> Plausible(r.e)
    decreases |ts| - p, 0, 0
  {
    var e := Level(ts, p + 1, OR_LEVEL);
    if e.Err? then e
    else if ts[e.pos].kind != RPAREN then Err(ExpectedRParen, e.pos)
    else Ok(e.v, e.pos + 1)
  }

  /** A list of expressions up to a closing token, which is not taken along. */
  function Listed(ts: Toks, p: nat, close: Kind): (r: Res<seq<Expr>>)
    requires p < |ts|
    ensures p <= r.pos < |ts|
    ensures r.Err? ==> Plausible(r.e)
    decreases |ts| - p, 4, 0
  {
    if ts[p].kind == close then Ok([], p) else Items(ts, [], p)
  }

  function Items(ts: Toks, before: seq<Expr>, p: nat): (r: Res<seq<Expr>>)
    requires p < |ts|
    ensures p <= r.pos < |ts| && (r.Ok? ==> p < r.pos)
    ensures r.Err? ==> Plausible(r.e)
    decreases |ts| - p, 3, 0
  {
    var e := Level(ts, p, OR_LEVEL);
    if e.Err? then Err(e.e, e.pos)
    else if ts[e.pos].kind != COMMA then Ok(before + [e.v], e.pos)
    else Items(ts, before + [e.v], e.pos + 1)
  }

  function Parsed(ts: Toks, p: nat): (r: Res<Expr>)
    requires p < |ts|
    ensures p <= r.pos < |ts| && (r.Ok? ==> p < r.pos)
    ensures r.Err? ==> Plausible(r.e)
  {
    Level(ts, p, OR_LEVEL)
  }

  // ---- statements ----

  function SkipLines(ts: Toks, p: nat): (q: nat)
    requires p < |ts|
    ensures p <= q < |ts| && ts[q].kind != NEWLINE
    ensures forall i :: p <= i < q ==> ts[i].kind == NEWLINE
    decreases |ts| - p
  {
    if ts[p].kind == NEWLINE then SkipLines(ts, p + 1) else p
  }

  /** One newline, if there is one. */
  function LineEnd(ts: Toks, p: nat): (q: nat)
    requires p < |ts|
    ensures p <= q < |ts|
  {
    if ts[p].kind == NEWLINE then p + 1 else p
  }

  function Statement(ts: Toks, p0: nat): (r: Res<Stmt>)
    requires p0 < |ts|
    ensures p0 <= r.pos < |ts| && (r.Ok? ==> p0 < r.pos)
    decreases |ts| - p0, 3
  {
    var p := SkipLines(ts, p0);
    var k := ts[p].kind;
    if k == EOF || k == DEDENT then Err(Silent, p)
    else if k in {IF, WHILE, FOR, DEF} then Compound(ts, p)
    else OneLine(ts, p)
  }

  /** Statements with a block. */
  function Compound(ts: Toks, p: nat): (r: Res<Stmt>)
    requires p < |ts| && ts[p].kind in {IF, WHILE, FOR, DEF}
    ensures p <= r.pos < |ts| && (r.Ok? ==> p < r.pos)
    decreases |ts| - p, 2
  {
    var k := ts[p].kind;
    if k == IF then IfRest(ts, p + 1)
    else if k == WHILE then WhileRest(ts, p + 1)
    else if k == FOR then ForRest(ts, p + 1)
    else DefRest(ts, p + 1)
  }

  /** Statements without a block. */
  function OneLine(ts: Toks, p: nat): (r: Res<Stmt>)
    requires p < |ts| && ts[p].kind != EOF
    ensures p <= r.pos < |ts| && (r.Ok? ==> p < r.pos)
    ensures r.Err? ==> Plausible(r.e)
  {
    var k := ts[p].kind;
    if k == PASS then Ok(Pass, LineEnd(ts, p + 1))
    else if k == RETURN then ReturnRest(ts, p + 1)
    else if k == IMPORT then
      if ts[p + 1].kind != NAME then Err(ExpectedName, p + 1) else Ok(Import(ts[p + 1].text), LineEnd(ts, p + 2))
    else Simple(ts, p)
  }

  /** An assignment or an expression. */
  function Simple(ts: Toks, p: nat): (r: Res<Stmt>)
    requires p < |ts| && ts[p].kind != EOF
    ensures p <= r.pos < |ts| && (r.Ok? ==> p < r.pos)
    ensures r.Err? ==> Plausible(r.e)
  {
    if ts[p].kind == NAME && ts[p + 1].kind == EQ then
      var e := Parsed(ts, p + 2);
      if e.Err? then Err(e.e, e.pos) else Ok(Assign(ts[p].text, e.v), LineEnd(ts, e.pos))
    else
      var e := Parsed(ts, p);
      if e.Err? then Err(e.e, e.pos) else Ok(ExprStmt(e.v), LineEnd(ts, e.pos))
  }

  /** Behind `return`. */
  function ReturnRest(ts: Toks, p: nat): (r: Res<Stmt>)
    requires p < |ts|
    ensures p <= r.pos < |ts|
    ensures r.Err? ==> Plausible(r.e)
  {
    if ts[p].kind in {NEWLINE, EOF, DEDENT} then Ok(Return(None), LineEnd(ts, p))
    else
      var e := Parsed(ts, p);
      if e.Err? then Err(e.e, e.pos) else Ok(Return(Some(e.v)), LineEnd(ts, e.pos))
  }

  /** Behind `while`. */
  function WhileRest(ts: Toks, p: nat): (r: Res<Stmt>)
    requires p < |ts|
    ensures p <= r.pos < |ts| && (r.Ok? ==> p < r.pos)
    decreases |ts| - p, 3
  {
    var c := Parsed(ts, p);
    if c.Err? then Err(c.e, c.pos)
    else
      var b := Suite(ts, c.pos);
      if b.Err? then Err(b.e, b.pos) else Ok(While(c.v, b.v), b.pos)
  }

  /** Behind `for`. */
  function ForRest(ts: Toks, p: nat): (r: Res<Stmt>)
    requires p < |ts|
    ensures p <= r.pos < |ts| && (r.Ok? ==> p < r.pos)
    decreases |ts| - p, 3
  {
    if ts[p].kind != NAME then Err(ExpectedName, p)
    else if ts[p + 1].kind != IN then Err(ExpectedIn, p + 1)
    else
      var e := Parsed(ts, p + 2);
      if e.Err? then Err(e.e, e.pos)
      else
        var b := Suite(ts, e.pos);
        if b.Err? then Err(b.e, b.pos) else Ok(For(ts[p].text, e.v, b.v), b.pos)
  }

  /** Behind `def`. */
  function DefRest(ts: Toks, p: nat): (r: Res<Stmt>)
    requires p < |ts|
    ensures p <= r.pos < |ts| && (r.Ok? ==> p < r.pos)
    decreases |ts| - p, 3
  {
    if ts[p].kind != NAME then Err(ExpectedName, p)
    else if ts[p + 1].kind != LPAREN then Err(ExpectedLParen, p + 1)
    else
      var ps := Params(ts, p + 2);
      if ps.Err? then Err(ps.e, ps.pos)
      else if ts[ps.pos].kind != RPAREN then Err(ExpectedRParen, ps.pos)
      else
        var b := Suite(ts, ps.pos + 1);
        if b.Err? then Err(b.e, b.pos) else Ok(Def(ts[p].text, ps.v, b.v), b.pos)
  }

  /** Behind `if` or `elif`. */
  function IfRest(ts: Toks, p: nat): (r: Res<Stmt>)
    requires p < |ts|
    ensures p <= r.pos < |ts| && (r.Ok? ==> p < r.pos)
    decreases |ts| - p, 3
  {
    var c := Parsed(ts, p);
    if c.Err? then Err(c.e, c.pos)
    else
      var b := Suite(ts, c.pos);
      if b.Err? then Err(b.e, b.pos)
      else
        var e := ElseRest(ts, b.pos);
        if e.Err? then Err(e.e, e.pos) else Ok(If(c.v, b.v, e.v), e.pos)
  }

  /** `elif`, `else` or neither, behind blank lines. */
  function ElseRest(ts: Toks, p: nat): (r: Res<Else>)
    requires p < |ts|
    ensures p <= r.pos < |ts|
    decreases |ts| - p, 3
  {
    var q := SkipLines(ts, p);
    if ts[q].kind == ELIF then
      var r := IfRest(ts, q + 1);
      if r.Err? then Err(r.e, r.pos) else Ok(Elif(r.v), r.pos)
    else if ts[q].kind == ELSE then
      var e := Suite(ts, q + 1);
      if e.Err? then Err(e.e, e.pos) else Ok(ElseBlock(e.v), e.pos)
    else Ok(NoElse, q)
  }

  function Params(ts: Toks, p: nat): (r: Res<seq<string>>)
    requires p < |ts|
    ensures p <= r.pos < |ts|
    ensures r.Err? ==> Plausible(r.e)
  {
    if ts[p].kind == RPAREN then Ok([], p) else MoreParams(ts, [], p)
  }

  function MoreParams(ts: Toks, before: seq<string>, p: nat): (r: Res<seq<string>>)
    requires p < |ts|
    ensures p <= r.pos < |ts| && (r.Ok? ==> p < r.pos)
    ensures r.Err? ==> Plausible(r.e)
    decreases |ts| - p
  {
    if ts[p].kind != NAME then Err(ExpectedName, p)
    else if ts[p + 1].kind != COMMA then Ok(before + [ts[p].text], p + 1)
    else MoreParams(ts, before + [ts[p].text], p + 2)
  }

  /** A colon and either an indented block or one statement. */
  function Suite(ts: Toks, p: nat): (r: Res<seq<Stmt>>)
    requires p < |ts|
    ensures p <= r.pos < |ts| && (r.Ok? ==> p < r.pos)
    decreases |ts| - p, 2
  {
    if ts[p].kind != COLON then Err(ExpectedColon, p)
    else if ts[p + 1].kind == NEWLINE then
      if ts[p + 2].kind != INDENT then Err(ExpectedIndent, p + 2)
      else
        var b := Block(ts, [], p + 3);
        if b.Err? then b
        else if ts[b.pos].kind != DEDENT then Err(ExpectedDedent, b.pos)
        else Ok(b.v, b.pos + 1)
    else
      var s := Statement(ts, p + 1);
      if s.Err? then Err(s.e, s.pos) else Ok([s.v], s.pos)
  }

  /** Statements up to a DEDENT or EOF, which is not taken along; a failure without a message also ends a block. */
  function Block(ts: Toks, before: seq<Stmt>, p: nat): (r: Res<seq<Stmt>>)
    requires p < |ts|
    ensures p <= r.pos < |ts| && (r.Err? ==> r.e != Silent)
    decreases |ts| - p, 4
  {
    var q := SkipLines(ts, p);
    if ts[q].kind in {DEDENT, EOF} then Ok(before, q)
    else
      var s := Statement(ts, q);
      if s.Ok? then Block(ts, before + [s.v], s.pos)
      else if s.e != Silent then Err(s.e, s.pos)
      else Ok(before, s.pos)
  }

  /** A module: statements up to EOF; a failure without a message ends it early. */
  function Module(ts: Toks, before: seq<Stmt>, p: nat): (r: Res<seq<Stmt>>)
    requires p < |ts|
    ensures p <= r.pos < |ts| && (r.Err? ==> r.e != Silent)
    decreases |ts| - p
  {
    var q := SkipLines(ts, p);
    if ts[q].kind == EOF then Ok(before, q)
    else
      var s := Statement(ts, q);
      if s.Ok? then Module(ts, before + [s.v], s.pos)
      else if s.e != Silent then Err(s.e, s.pos)
      else Ok(before, s.pos)
  }
}
