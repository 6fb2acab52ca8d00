/** The recursive-descent parser, proved against the grammar. */
module PyParser {
  import opened Wrappers
  import opened PyTokens
  import opened PyGrammar

  /** A position in a token array that moves forward as tokens are taken, and the message of the first failure. */
  class Parser {
    const ts: Toks
    var pos: nat
    var err: Error

    constructor (tokens: Toks)
      ensures ts == tokens && pos == 0 && err == Silent
    {
      ts, pos, err := tokens, 0, Silent;
    }

    /** What a parse left behind: the position, and a message if it failed with one. */
    ghost predicate Left<T>(r: Res<T>)
      reads this
    {
      pos == r.pos && err == if r.Ok? then Silent else r.e
    }

    method Match(k: Kind) returns (m: bool)
      requires pos < |ts| && k != EOF
      modifies this`pos
      ensures m == (ts[old(pos)].kind == k) && pos == (if m then old(pos) + 1 else old(pos)) && pos < |ts|
    {
      m := ts[pos].kind == k;
      if m {
        pos := pos + 1;
      }
    }

    method Expect(k: Kind, e: Error) returns (m: bool)
      requires pos < |ts| && k != EOF && err == Silent
      modifies this`pos, this`err
      ensures m == (ts[old(pos)].kind == k) && pos == (if m then old(pos) + 1 else old(pos)) && pos < |ts|
      ensures err == if m then Silent else e
    {
      m := Match(k);
      if !m {
        err := e;
      }
    }

    // ---- expressions ----

    method ParsePrimary() returns (n: Option<Expr>)
      requires pos < |ts| && err == Silent
      modifies this
      ensures var r := Level(ts, old(pos), PRIMARY_LEVEL); Left(r) && n == (if r.Ok? then Some(r.v) else None)
      decreases |ts| - pos, 2, 0
    {
      ghost var p0 := pos;
      n := ParseAtom();
      if n.None? {
        return;
      }
      while true
        invariant p0 < pos < |ts| && err == Silent && n.Some?
        invariant Level(ts, p0, PRIMARY_LEVEL) == Indexed(ts, n.value, pos)
        decreases |ts| - pos
      {
        var more := Match(LBRACK);
        if !more {
          break;
        }
        var i := ParseExpr();
        if i.None? {
          return None;
        }
        var closed := Expect(RBRACK, ExpectedRBrack);
        if !closed {
          return None;
        }
        n := Some(Index(n.value, i.value));
      }
    }

    method ParseAtom() returns (n: Option<Expr>)
      requires pos < |ts| && err == Silent
      modifies this
      ensures var r := Atom(ts, old(pos)); Left(r) && n == (if r.Ok? then Some(r.v) else None)
      decreases |ts| - pos, 1, 0
    {
      hide Level, Listed, Bracketed, Called, Parenthesised, Literal;
      var t := ts[pos];
      n := ParseLiteral();
      if n.Some? {
        return;
      }
      if t.kind == LBRACK {
        n := ParseBrackets();
        return;
      }
      var m := Match(NAME);
      if m {
        if ts[pos].kind == LPAREN {
          n := ParseCall(t.text);
          return;
        }
        return Some(Name(t.text));
      }
      if t.kind == LPAREN {
        n := ParseParens();
        return;
      }
      err := ExpectedExpr;
      n := None;
    }

    method ParseLiteral() returns (n: Option<Expr>)
      requires pos < |ts|
      modifies this`pos
      ensures n == Literal(ts[old(pos)]) && pos == (if n.Some? then old(pos) + 1 else old(pos)) && pos < |ts|
    {
      hide Unescaped;
      var t := ts[pos];
      var m := Match(NUMBER);
      if m {
        return Some(Int(t.number));
      }
      m := Match(STRING);
      if m {
        return Some(Str(Unescaped(t.text)));
      }
      m := Match(TRUE);
      if m {
        return Some(Bool(true));
      }
      m := Match(FALSE);
      if m {
        return Some(Bool(false));
      }
      m := Match(NONE);
      n := if m then Some(NoneLit) else None;
    }

    method ParseBrackets() returns (n: Option<Expr>)
      requires pos < |ts| && err == Silent && ts[pos].kind == LBRACK
      modifies this
      ensures var r := Bracketed(ts, old(pos)); Left(r) && n == (if r.Ok? then Some(r.v) else None)
      decreases |ts| - pos, 0, 0
    {
      hide Level, Listed;
      pos := pos + 1;
      var items := ParseList(RBRACK);
      if items.None? {
        return None;
      }
      var closed := Expect(RBRACK, ExpectedRBrack);
      n := if closed then Some(List(items.value)) else None;
    }

    method ParseCall(f: string) returns (n: Option<Expr>)
      requires 0 < pos < |ts| && err == Silent && ts[pos - 1].kind == NAME && ts[pos - 1].text == f
      requires ts[pos].kind == LPAREN
      modifies this
      ensures var r := Called(ts, old(pos) - 1); Left(r) && n == (if r.Ok? then Some(r.v) else None)
      decreases |ts| - pos, 0, 0
    {
      hide Level, Listed;
      pos := pos + 1;
      var args := ParseList(RPAREN);
      if args.None? {
        return None;
      }
      var closed := Expect(RPAREN, ExpectedRParen);
      n := if closed then Some(Call(f, args.value)) else None;
    }

    method ParseParens() returns (n: Option<Expr>)
      requires pos < |ts| && err == Silent && ts[pos].kind == LPAREN
      modifies this
      ensures var r := Parenthesised(ts, old(pos)); Left(r) && n == (if r.Ok? then Some(r.v) else None)
      decreases |ts| - pos, 0, 0
    {
      hide Level;
      pos := pos + 1;
      n := ParseExpr();
      if n.None? {
        return;
      }
      var closed := Expect(RPAREN, ExpectedRParen);
      n := if closed then n else None;
    }

    /** Expressions separated by commas, up to a closing token. */
    method ParseList(close: Kind) returns (items: Option<seq<Expr>>)
      requires pos < |ts| && err == Silent
      modifies this
      ensures var r := Listed(ts, old(pos), close); Left(r) && items == (if r.Ok? then Some(r.v) else None)
      decreases |ts| - pos, 9, 0
    {
      if ts[pos].kind == close {
        return Some([]);
      }
      ghost var p0 := pos;
      var before: seq<Expr> := [];
      while true
        invariant p0 <= pos < |ts| && err == Silent && Items(ts, [], p0) == Items(ts, before, pos)
        decreases |ts| - pos
      {
        var e := ParseExpr();
        if e.None? {
          return None;
        }
        before := before + [e.value];
        var more := Match(COMMA);
        if !more {
          break;
        }
      }
      items := Some(before);
    }

    method ParseUnary() returns (n: Option<Expr>)
      requires pos < |ts| && err == Silent
      modifies this
      ensures var r := Level(ts, old(pos), UNARY_LEVEL); Left(r) && n == (if r.Ok? then Some(r.v) else None)
      decreases |ts| - pos, 3, 0
    {
      var m := Match(NOT);
      if !m {
        m := Match(MINUS);
      }
      if !m {
        m := Match(PLUS);
      }
      if m {
        var op := ts[pos - 1].kind;
        n := ParseUnary();
        return if n.Some? then Some(Unary(op, n.value)) else None;
      }
      n := ParsePrimary();
    }

    method ParseTerm() returns (left: Option<Expr>)
      requires pos < |ts| && err == Silent
      modifies this
      ensures var r := Level(ts, old(pos), TERM_LEVEL); Left(r) && left == (if r.Ok? then Some(r.v) else None)
      decreases |ts| - pos, 4, 0
    {
      ghost var p0 := pos;
      left := ParseUnary();
      if left.None? {
        return;
      }
      while ts[pos].kind == STAR || ts[pos].kind == SLASH || ts[pos].kind == PERCENT
        invariant p0 < pos < |ts| && err == Silent && left.Some?
        invariant Level(ts, p0, TERM_LEVEL) == Joined(ts, left.value, pos, TERM_LEVEL)
        decreases |ts| - pos
      {
        var op := ts[pos].kind;
        pos := pos + 1;
        var right := ParseUnary();
        if right.None? {
          return None;
        }
        left := Some(Binop(op, left.value, right.value));
      }
    }

    method ParseArith() returns (left: Option<Expr>)
      requires pos < |ts| && err == Silent
      modifies this
      ensures var r := Level(ts, old(pos), ARITH_LEVEL); Left(r) && left == (if r.Ok? then Some(r.v) else None)
      decreases |ts| - pos, 5, 0
    {
      ghost var p0 := pos;
      left := ParseTerm();
      if left.None? {
        return;
      }
      while ts[pos].kind == PLUS || ts[pos].kind == MINUS
        invariant p0 < pos < |ts| && err == Silent && left.Some?
        invariant Level(ts, p0, ARITH_LEVEL) == Joined(ts, left.value, pos, ARITH_LEVEL)
        decreases |ts| - pos
      {
        var op := ts[pos].kind;
        pos := pos + 1;
        var right := ParseTerm();
        if right.None? {
          return None;
        }
        left := Some(Binop(op, left.value, right.value));
      }
    }

    method ParseCompare() returns (left: Option<Expr>)
      requires pos < |ts| && err == Silent
      modifies this
      ensures var r := Level(ts, old(pos), COMPARE_LEVEL); Left(r) && left == (if r.Ok? then Some(r.v) else None)
      decreases |ts| - pos, 6, 0
    {
      left := ParseArith();
      if left.None? {
        return;
      }
      if ts[pos].kind in {EQEQ, NE, LT, GT, LE, GE} {
        var op := ts[pos].kind;
        pos := pos + 1;
        var right := ParseArith();
        return if right.Some? then Some(Compare(op, left.value, right.value)) else None;
      }
    }

    method ParseAnd() returns (left: Option<Expr>)
      requires pos < |ts| && err == Silent
      modifies this
      ensures var r := Level(ts, old(pos), AND_LEVEL); Left(r) && left == (if r.Ok? then Some(r.v) else None)
      decreases |ts| - pos, 7, 0
    {
      ghost var p0 := pos;
      left := ParseCompare();
      if left.None? {
        return;
      }
      while true
        invariant p0 < pos < |ts| && err == Silent && left.Some?
        invariant Level(ts, p0, AND_LEVEL) == Joined(ts, left.value, pos, AND_LEVEL)
        decreases |ts| - pos
      {
        var more := Match(AND);
        if !more {
          break;
        }
        var right := ParseCompare();
        if right.None? {
          return None;
        }
        left := Some(Binop(AND, left.value, right.value));
      }
    }

    method ParseOr() returns (left: Option<Expr>)
      requires pos < |ts| && err == Silent
      modifies this
      ensures var r := Level(ts, old(pos), OR_LEVEL); Left(r) && left == (if r.Ok? then Some(r.v) else None)
      decreases |ts| - pos, 8, 0
    {
      ghost var p0 := pos;
      left := ParseAnd();
      if left.None? {
        return;
      }
      while true
        invariant p0 < pos < |ts| && err == Silent && left.Some?
        invariant Level(ts, p0, OR_LEVEL) == Joined(ts, left.value, pos, OR_LEVEL)
        decreases |ts| - pos
      {
        var more := Match(OR);
        if !more {
          break;
        }
        var right := ParseAnd();
        if right.None? {
          return None;
        }
        left := Some(Binop(OR, left.value, right.value));
      }
    }

    method ParseExpr() returns (n: Option<Expr>)
      requires pos < |ts| && err == Silent
      modifies this
      ensures var r := Parsed(ts, old(pos)); Left(r) && n == (if r.Ok? then Some(r.v) else None)
      decreases |ts| - pos, 8, 1
    {
      n := ParseOr();
    }

    // ---- statements ----

    method SkipNewlines()
      requires pos < |ts|
      modifies this`pos
      ensures pos == SkipLines(ts, old(pos))
    {
      var more := true;
      while more
        invariant pos < |ts| && SkipLines(ts, pos) == SkipLines(ts, old(pos)) && (!more ==> ts[pos].kind != NEWLINE)
        decreases |ts| - pos, if more then 1 else 0
      {
        more := Match(NEWLINE);
      }
    }

    /** What every statement method promises: the grammar's result and position, and no node on failure. */
    ghost predicate Gives<T>(n: Option<T>, r: Res<T>)
      reads this
    {
      Left(r) && n == if r.Ok? then Some(r.v) else None
    }

    method ParseSuite() returns (block: Option<seq<Stmt>>)
      requires pos < |ts| && err == Silent
      modifies this
      ensures Gives(block, Suite(ts, old(pos)))
      decreases |ts| - pos, 2
    {
      hide Level, Statement, Block;
      var m := Expect(COLON, ExpectedColon);
      if !m {
        return None;
      }
      m := Match(NEWLINE);
      if m {
        m := Expect(INDENT, ExpectedIndent);
        if !m {
          return None;
        }
        block := ParseBlock();
        if block.None? {
          return;
        }
        m := Expect(DEDENT, ExpectedDedent);
        return if m then block else None;
      }
      var s := ParseStmt();
      return if s.Some? then Some([s.value]) else None;
    }

    method ParseIfBody() returns (n: Option<Stmt>)
      requires pos < |ts| && err == Silent
      modifies this
      ensures Gives(n, IfRest(ts, old(pos)))
      decreases |ts| - pos, 3
    {
      hide Level, Suite, ElseRest;
      var c := ParseExpr();
      if c.None? {
        return None;
      }
      var b := ParseSuite();
      if b.None? {
        return None;
      }
      var e := ParseElse();
      n := if e.Some? then Some(If(c.value, b.value, e.value)) else None;
    }

    method ParseElse() returns (n: Option<Else>)
      requires pos < |ts| && err == Silent
      modifies this
      ensures Gives(n, ElseRest(ts, old(pos)))
      decreases |ts| - pos, 3
    {
      hide Level, Suite, SkipLines, IfRest;
      SkipNewlines();
      var m := Match(ELIF);
      if m {
        var r := ParseIfBody();
        return if r.Some? then Some(Elif(r.value)) else None;
      }
      m := Match(ELSE);
      if m {
        var e := ParseSuite();
        return if e.Some? then Some(ElseBlock(e.value)) else None;
      }
      n := Some(NoElse);
    }

    method ParseFor() returns (n: Option<Stmt>)
      requires pos < |ts| && err == Silent
      modifies this
      ensures Gives(n, ForRest(ts, old(pos)))
      decreases |ts| - pos, 3
    {
      hide Level, Suite;
      var t := ts[pos];
      var m := Expect(NAME, ExpectedName);
      if !m {
        return None;
      }
      m := Expect(IN, ExpectedIn);
      if !m {
        return None;
      }
      var e := ParseExpr();
      if e.None? {
        return None;
      }
      var b := ParseSuite();
      n := if b.Some? then Some(For(t.text, e.value, b.value)) else None;
    }

    method ParseDef() returns (n: Option<Stmt>)
      requires pos < |ts| && err == Silent
      modifies this
      ensures Gives(n, DefRest(ts, old(pos)))
      decreases |ts| - pos, 3
    {
      hide Level, Suite, MoreParams, Params;
      var t := ts[pos];
      var m := Expect(NAME, ExpectedName);
      if !m {
        return None;
      }
      m := Expect(LPAREN, ExpectedLParen);
      if !m {
        return None;
      }
      var ps := ParseParams();
      if ps.None? {
        return None;
      }
      m := Expect(RPAREN, ExpectedRParen);
      if !m {
        return None;
      }
      var b := ParseSuite();
      n := if b.Some? then Some(Def(t.text, ps.value, b.value)) else None;
    }

    method ParseParams() returns (ps: Option<seq<string>>)
      requires pos < |ts| && err == Silent
      modifies this
      ensures Gives(ps, Params(ts, old(pos)))
      decreases |ts| - pos, 1
    {
      if ts[pos].kind == RPAREN {
        return Some([]);
      }
      ghost var p0 := pos;
      var before: seq<string> := [];
      while true
        invariant p0 <= pos < |ts| && err == Silent && MoreParams(ts, [], p0) == MoreParams(ts, before, pos)
        decreases |ts| - pos
      {
        var t := ts[pos];
        var m := Expect(NAME, ExpectedName);
        if !m {
          return None;
        }
        before := before + [t.text];
        m := Match(COMMA);
        if !m {
          break;
        }
      }
      ps := Some(before);
    }

    method ParseStmt() returns (n: Option<Stmt>)
      requires pos < |ts| && err == Silent
      modifies this
      ensures Gives(n, Statement(ts, old(pos)))
      decreases |ts| - pos, 3
    {
      hide Level, Suite, SkipLines, Compound, OneLine;
      SkipNewlines();
      if ts[pos].kind == EOF || ts[pos].kind == DEDENT {
        return None;
      }
      if ts[pos].kind in {IF, WHILE, FOR, DEF} {
        n := ParseCompound();
      } else {
        n := ParseOneLine();
      }
    }

    method ParseCompound() returns (n: Option<Stmt>)
      requires pos < |ts| && err == Silent && ts[pos].kind in {IF, WHILE, FOR, DEF}
      modifies this
      ensures Gives(n, Compound(ts, old(pos)))
      decreases |ts| - pos, 2
    {
      hide Level, Suite, SkipLines, IfRest, ForRest, DefRest, WhileRest;
      var m := Match(IF);
      if m {
        n := ParseIfBody();
        return;
      }
      m := Match(WHILE);
      if m {
        n := ParseWhile();
        return;
      }
      m := Match(FOR);
      if m {
        n := ParseFor();
        return;
      }
      pos := pos + 1;
      n := ParseDef();
    }

    method ParseOneLine() returns (n: Option<Stmt>)
      requires pos < |ts| && err == Silent && ts[pos].kind != EOF
      modifies this
      ensures Gives(n, OneLine(ts, old(pos)))
      decreases |ts| - pos, 2
    {
      hide Level, Simple, ReturnRest;
      var m := Match(PASS);
      if m {
        m := Match(NEWLINE);
        return Some(Pass);
      }
      m := Match(RETURN);
      if m {
        n := ParseReturn();
        return;
      }
      m := Match(IMPORT);
      if m {
        var t := ts[pos];
        m := Expect(NAME, ExpectedName);
        if !m {
          return None;
        }
        m := Match(NEWLINE);
        return Some(Import(t.text));
      }
      n := ParseSimple();
    }

    method ParseReturn() returns (n: Option<Stmt>)
      requires pos < |ts| && err == Silent
      modifies this
      ensures Gives(n, ReturnRest(ts, old(pos)))
      decreases |ts| - pos, 2
    {
      hide Level;
      var value: Option<Expr> := None;
      if ts[pos].kind != NEWLINE && ts[pos].kind != EOF && ts[pos].kind != DEDENT {
        value := ParseExpr();
        if value.None? {
          return None;
        }
      }
      var _ := Match(NEWLINE);
      n := Some(Return(value));
    }

    method ParseWhile() returns (n: Option<Stmt>)
      requires pos < |ts| && err == Silent
      modifies this
      ensures Gives(n, WhileRest(ts, old(pos)))
      decreases |ts| - pos, 3
    {
      hide Level, Suite;
      var c := ParseExpr();
      if c.None? {
        return None;
      }
      var b := ParseSuite();
      n := if b.Some? then Some(While(c.value, b.value)) else None;
    }

    /** An assignment or an expression; a name that is not assigned to is read again as an expression. */
    method ParseSimple() returns (n: Option<Stmt>)
      requires pos < |ts| && err == Silent && ts[pos].kind != EOF
      modifies this
      ensures Gives(n, Simple(ts, old(pos)))
      decreases |ts| - pos, 1
    {
      hide Level;
      if ts[pos].kind == NAME {
        var save, t := pos, ts[pos];
        pos := pos + 1;
        var m := Match(EQ);
        if m {
          var e := ParseExpr();
          if e.None? {
            return None;
          }
          m := Match(NEWLINE);
          return Some(Assign(t.text, e.value));
        }
        pos := save;
      }
      var e := ParseExpr();
      if e.None? {
        return None;
      }
      var _ := Match(NEWLINE);
      n := Some(ExprStmt(e.value));
    }

    method ParseBlock() returns (block: Option<seq<Stmt>>)
      requires pos < |ts| && err == Silent
      modifies this
      ensures Gives(block, Block(ts, [], old(pos)))
      decreases |ts| - pos, 4
    {
      hide SkipLines, Statement;
      ghost var p0 := pos;
      var before: seq<Stmt> := [];
      while true
        invariant p0 <= pos < |ts| && err == Silent && Block(ts, [], p0) == Block(ts, before, pos)
        decreases |ts| - pos
      {
        SkipNewlines();
        if ts[pos].kind == DEDENT || ts[pos].kind == EOF {
          break;
        }
        var s := ParseStmt();
        if s.None? {
          if err != Silent {
            return None;
          }
          break;
        }
        before := before + [s.value];
      }
      block := Some(before);
    }

    /** Parses a whole module. */
    method ParseModule() returns (m: Option<seq<Stmt>>)
      requires pos == 0 && err == Silent
      modifies this
      ensures Gives(m, Module(ts, [], 0))
    {
      hide SkipLines, Statement;
      var before: seq<Stmt> := [];
      while true
        invariant pos < |ts| && err == Silent && Module(ts, [], 0) == Module(ts, before, pos)
        decreases |ts| - pos
      {
        SkipNewlines();
        if ts[pos].kind == EOF {
          break;
        }
        var s := ParseStmt();
        if s.None? {
          if err != Silent {
            return None;
          }
          break;
        }
        before := before + [s.value];
      }
      m := Some(before);
    }
  }
}
