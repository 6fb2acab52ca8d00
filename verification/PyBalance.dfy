/** What the parser takes along: expressions no block structure, statements only balanced segments. */
module PyBalance {
  import opened PyTokens
  import opened PyGrammar

  // ---- expressions take no block structure along ----

  /** No block structure, nor the colon that announces it. */
  ghost predicate Flat(ts: seq<Tok>, a: nat, b: nat) {
    a <= b <= |ts| && forall i :: a <= i < b ==> !Structural(ts[i].kind) && ts[i].kind != COLON
  }

  lemma {:induction false} LevelFlat(ts: Toks, p: nat, level: nat)
    requires level <= PRIMARY_LEVEL && p < |ts| && Level(ts, p, level).Ok?
    ensures Flat(ts, p, Level(ts, p, level).pos)
    decreases |ts| - p, 2, PRIMARY_LEVEL - level
  {
    if level == PRIMARY_LEVEL {
      AtomFlat(ts, p);
      IndexedFlat(ts, Atom(ts, p).v, Atom(ts, p).pos);
    } else if level == UNARY_LEVEL {
      if Prefix(ts[p].kind) {
        LevelFlat(ts, p + 1, UNARY_LEVEL);
      } else {
        LevelFlat(ts, p, PRIMARY_LEVEL);
      }
    } else {
      var a := Level(ts, p, level + 1);
      LevelFlat(ts, p, level + 1);
      JoinedFlat(ts, a.v, a.pos, level);
    }
  }

  lemma {:induction false} JoinedFlat(ts: Toks, left: Expr, p: nat, level: nat)
    requires level < UNARY_LEVEL && p < |ts| && Joined(ts, left, p, level).Ok?
    ensures Flat(ts, p, Joined(ts, left, p, level).pos)
    decreases |ts| - p, 0, 0
  {
    hide Level;
    if JoinsAt(ts[p].kind, level) {
      var b := Level(ts, p + 1, level + 1);
      LevelFlat(ts, p + 1, level + 1);
      if level != COMPARE_LEVEL {
        JoinedFlat(ts, Binop(ts[p].kind, left, b.v), b.pos, level);
      }
    }
  }

  lemma {:induction false} IndexedFlat(ts: Toks, a: Expr, p: nat)
    requires p < |ts| && Indexed(ts, a, p).Ok?
    ensures Flat(ts, p, Indexed(ts, a, p).pos)
    decreases |ts| - p, 0, 0
  {
    hide Level;
    if ts[p].kind == LBRACK {
      var i := Level(ts, p + 1, OR_LEVEL);
      LevelFlat(ts, p + 1, OR_LEVEL);
      IndexedFlat(ts, Index(a, i.v), i.pos + 1);
    }
  }

  lemma OneFlat(ts: seq<Tok>, p: nat)
    requires p < |ts|
    ensures !Structural(ts[p].kind) && ts[p].kind != COLON ==> Flat(ts, p, p + 1)
  {}

  lemma FlatThen(ts: seq<Tok>, a: nat, b: nat, c: nat)
    requires Flat(ts, a, b) && Flat(ts, b, c)
    ensures Flat(ts, a, c)
  {}

  /** What opens, what is inside, and the token that closes. */
  lemma Enclosed(ts: seq<Tok>, a: nat, b: nat, c: nat)
    requires Flat(ts, a, b) && Flat(ts, b, c) && c < |ts| && !Structural(ts[c].kind) && ts[c].kind != COLON
    ensures Flat(ts, a, c + 1)
  {}

  lemma {:induction false} AtomFlat(ts: Toks, p: nat)
    requires p < |ts| && Atom(ts, p).Ok?
    ensures Flat(ts, p, Atom(ts, p).pos)
    decreases |ts| - p, 1, 0
  {
    hide Level, Listed, Literal, Flat, Bracketed, Called, Parenthesised;
    OneFlat(ts, p);
    if ts[p].kind == LBRACK {
      BracketedFlat(ts, p);
    } else if ts[p].kind == LPAREN {
      ParenthesisedFlat(ts, p);
    } else if ts[p].kind == NAME && ts[p + 1].kind == LPAREN {
      CalledFlat(ts, p);
    }
  }

  lemma {:induction false} BracketedFlat(ts: Toks, p: nat)
    requires p < |ts| && ts[p].kind == LBRACK && Bracketed(ts, p).Ok?
    ensures Flat(ts, p, Bracketed(ts, p).pos)
    decreases |ts| - p, 0, 0
  {
    hide Listed, Flat;
    OneFlat(ts, p);
    ListedFlat(ts, p + 1, RBRACK);
    Enclosed(ts, p, p + 1, Listed(ts, p + 1, RBRACK).pos);
  }

  lemma {:induction false} ParenthesisedFlat(ts: Toks, p: nat)
    requires p < |ts| && ts[p].kind == LPAREN && Parenthesised(ts, p).Ok?
    ensures Flat(ts, p, Parenthesised(ts, p).pos)
    decreases |ts| - p, 0, 0
  {
    hide Level, Flat;
    OneFlat(ts, p);
    LevelFlat(ts, p + 1, OR_LEVEL);
    Enclosed(ts, p, p + 1, Level(ts, p + 1, OR_LEVEL).pos);
  }

  lemma {:induction false} CalledFlat(ts: Toks, p: nat)
    requires p < |ts| && ts[p].kind == NAME && ts[p + 1].kind == LPAREN && Called(ts, p).Ok?
    ensures Flat(ts, p, Called(ts, p).pos)
    decreases |ts| - p, 0, 0
  {
    hide Listed, Flat;
    OneFlat(ts, p);
    OneFlat(ts, p + 1);
    FlatThen(ts, p, p + 1, p + 2);
    ListedFlat(ts, p + 2, RPAREN);
    Enclosed(ts, p, p + 2, Listed(ts, p + 2, RPAREN).pos);
  }

  lemma {:induction false} ListedFlat(ts: Toks, p: nat, close: Kind)
    requires p < |ts| && Listed(ts, p, close).Ok?
    ensures Flat(ts, p, Listed(ts, p, close).pos)
    decreases |ts| - p, 4, 0
  {
    if ts[p].kind != close {
      ItemsFlat(ts, [], p);
    }
  }

  lemma {:induction false} ItemsFlat(ts: Toks, before: seq<Expr>, p: nat)
    requires p < |ts| && Items(ts, before, p).Ok?
    ensures Flat(ts, p, Items(ts, before, p).pos)
    decreases |ts| - p, 3, 0
  {
    hide Level, Flat;
    var e := Level(ts, p, OR_LEVEL);
    LevelFlat(ts, p, OR_LEVEL);
    if ts[e.pos].kind == COMMA {
      ItemsFlat(ts, before + [e.v], e.pos + 1);
      OneFlat(ts, e.pos);
      FlatThen(ts, p, e.pos, e.pos + 1);
      FlatThen(ts, p, e.pos + 1, Items(ts, before, p).pos);
    }
  }

  // ---- statements take balanced segments along ----

  /** INDENTs less DEDENTs before position `p`. */
  function At(ts: seq<Tok>, p: nat): int { if p <= |ts| then Depth(ts[..p]) else 0 }

  lemma AtStep(ts: seq<Tok>, p: nat)
    requires p < |ts|
    ensures At(ts, p + 1) == At(ts, p) + Step(ts[p].kind)
  {
    assert ts[..p + 1][..p] == ts[..p];
  }

  /** From `a` to `b` every DEDENT closes an INDENT and every INDENT is closed. */
  ghost predicate Balanced(ts: seq<Tok>, a: nat, b: nat) {
    a <= b <= |ts| && At(ts, b) == At(ts, a) && forall i :: a <= i <= b ==> At(ts, i) >= At(ts, a)
  }

  lemma BalancedThen(ts: seq<Tok>, a: nat, b: nat, c: nat)
    requires Balanced(ts, a, b) && Balanced(ts, b, c)
    ensures Balanced(ts, a, c)
  {
    hide At;
  }

  lemma {:induction false} EvenBalanced(ts: seq<Tok>, a: nat, b: nat)
    requires a <= b <= |ts| && forall i :: a <= i < b ==> Step(ts[i].kind) == 0
    ensures Balanced(ts, a, b)
  {
    if a < b {
      EvenBalanced(ts, a, b - 1);
      AtStep(ts, b - 1);
    }
  }

  lemma ExprBalanced(ts: Toks, p: nat)
    requires p < |ts| && Parsed(ts, p).Ok?
    ensures Balanced(ts, p, Parsed(ts, p).pos)
  {
    LevelFlat(ts, p, OR_LEVEL);
    EvenBalanced(ts, p, Parsed(ts, p).pos);
  }

  lemma LinesBalanced(ts: Toks, p: nat)
    requires p < |ts|
    ensures Balanced(ts, p, SkipLines(ts, p)) && Balanced(ts, p, LineEnd(ts, p))
  {
    EvenBalanced(ts, p, SkipLines(ts, p));
    EvenBalanced(ts, p, LineEnd(ts, p));
  }

  lemma OneBalanced(ts: seq<Tok>, p: nat)
    requires p < |ts| && Step(ts[p].kind) == 0
    ensures Balanced(ts, p, p + 1)
  {
    EvenBalanced(ts, p, p + 1);
  }

  /** An INDENT, a balanced segment and a DEDENT are balanced. */
  lemma BlockBalanced(ts: seq<Tok>, a: nat, b: nat)
    requires a < b < |ts| && ts[a].kind == INDENT && ts[b].kind == DEDENT && Balanced(ts, a + 1, b)
    ensures Balanced(ts, a, b + 1)
  {
    AtStep(ts, a);
    AtStep(ts, b);
    hide At;
  }

  /** A token and what was parsed behind it. */
  lemma Behind(ts: seq<Tok>, p0: nat, p: nat, q: nat)
    requires p < |ts| && Step(ts[p].kind) == 0 && Balanced(ts, p0, p) && Balanced(ts, p + 1, q)
    ensures Balanced(ts, p0, q)
  {
    OneBalanced(ts, p);
    BalancedThen(ts, p, p + 1, q);
    BalancedThen(ts, p0, p, q);
  }

  /** Parsing went well, or stopped without a message at an EOF or DEDENT. */
  predicate Quiet<T>(r: Res<T>) { r.Ok? || r.e == Silent }

  predicate Stopped(ts: Toks, p: nat) { p < |ts| && ts[p].kind in {EOF, DEDENT} }

  /** Whatever a statement takes along is balanced, also if it stops without a message. */
  lemma {:induction false} StatementBalanced(ts: Toks, p0: nat)
    requires p0 < |ts| && Quiet(Statement(ts, p0))
    ensures Balanced(ts, p0, Statement(ts, p0).pos)
    ensures Statement(ts, p0).Err? ==> Stopped(ts, Statement(ts, p0).pos)
    decreases |ts| - p0, 3
  {
    hide Balanced, At, Level, Compound, OneLine, SkipLines, Suite;
    var p := SkipLines(ts, p0);
    LinesBalanced(ts, p0);
    var k := ts[p].kind;
    if k in {IF, WHILE, FOR, DEF} {
      CompoundBalanced(ts, p);
      BalancedThen(ts, p0, p, Compound(ts, p).pos);
    } else if k != EOF && k != DEDENT {
      OneLineBalanced(ts, p);
      BalancedThen(ts, p0, p, OneLine(ts, p).pos);
    }
  }

  lemma {:induction false} CompoundBalanced(ts: Toks, p: nat)
    requires p < |ts| && ts[p].kind in {IF, WHILE, FOR, DEF} && Quiet(Compound(ts, p))
    ensures Balanced(ts, p, Compound(ts, p).pos)
    ensures Compound(ts, p).Err? ==> Stopped(ts, Compound(ts, p).pos)
    decreases |ts| - p, 2
  {
    hide Balanced, At, Level, IfRest, WhileRest, ForRest, DefRest, SkipLines, Suite;
    var k := ts[p].kind;
    EvenBalanced(ts, p, p);
    if k == IF {
      IfBalanced(ts, p + 1);
    } else if k == WHILE {
      WhileBalanced(ts, p + 1);
    } else if k == FOR {
      ForBalanced(ts, p + 1);
    } else {
      DefBalanced(ts, p + 1);
    }
    Behind(ts, p, p, Compound(ts, p).pos);
  }

  lemma OneLineBalanced(ts: Toks, p: nat)
    requires p < |ts| && ts[p].kind != EOF && OneLine(ts, p).Ok?
    ensures Balanced(ts, p, OneLine(ts, p).pos)
  {
    hide Balanced, At, Level, Simple, ReturnRest;
    var k := ts[p].kind;
    EvenBalanced(ts, p, p);
    if k == PASS {
      LinesBalanced(ts, p + 1);
      Behind(ts, p, p, LineEnd(ts, p + 1));
    } else if k == RETURN {
      ReturnBalanced(ts, p + 1);
      Behind(ts, p, p, ReturnRest(ts, p + 1).pos);
    } else if k == IMPORT {
      OneBalanced(ts, p + 1);
      LinesBalanced(ts, p + 2);
      BalancedThen(ts, p + 1, p + 2, LineEnd(ts, p + 2));
      Behind(ts, p, p, LineEnd(ts, p + 2));
    } else {
      SimpleBalanced(ts, p);
    }
  }

  lemma ReturnBalanced(ts: Toks, p: nat)
    requires p < |ts| && ReturnRest(ts, p).Ok?
    ensures Balanced(ts, p, ReturnRest(ts, p).pos)
  {
    hide Balanced, At, Level;
    if ts[p].kind in {NEWLINE, EOF, DEDENT} {
      LinesBalanced(ts, p);
    } else {
      ExprLineBalanced(ts, p);
    }
  }

  lemma ExprLineBalanced(ts: Toks, p: nat)
    requires p < |ts| && Parsed(ts, p).Ok?
    ensures Balanced(ts, p, LineEnd(ts, Parsed(ts, p).pos))
  {
    hide Balanced, At, Level;
    var e := Parsed(ts, p);
    ExprBalanced(ts, p);
    LinesBalanced(ts, e.pos);
    BalancedThen(ts, p, e.pos, LineEnd(ts, e.pos));
  }

  lemma SimpleBalanced(ts: Toks, p: nat)
    requires p < |ts| && ts[p].kind != EOF && Simple(ts, p).Ok?
    ensures Balanced(ts, p, Simple(ts, p).pos)
  {
    hide Balanced, At, Level;
    if ts[p].kind == NAME && ts[p + 1].kind == EQ {
      OneBalanced(ts, p);
      ExprLineBalanced(ts, p + 2);
      Behind(ts, p, p + 1, Simple(ts, p).pos);
    } else {
      ExprLineBalanced(ts, p);
    }
  }

  lemma {:induction false} WhileBalanced(ts: Toks, p: nat)
    requires p < |ts| && Quiet(WhileRest(ts, p))
    ensures Balanced(ts, p, WhileRest(ts, p).pos)
    ensures WhileRest(ts, p).Err? ==> Stopped(ts, WhileRest(ts, p).pos)
    decreases |ts| - p, 3
  {
    hide Balanced, At, Level, Suite;
    var c := Parsed(ts, p);
    ExprBalanced(ts, p);
    SuiteBalanced(ts, c.pos);
    BalancedThen(ts, p, c.pos, Suite(ts, c.pos).pos);
  }

  lemma {:induction false} ForBalanced(ts: Toks, p: nat)
    requires p < |ts| && Quiet(ForRest(ts, p))
    ensures Balanced(ts, p, ForRest(ts, p).pos)
    ensures ForRest(ts, p).Err? ==> Stopped(ts, ForRest(ts, p).pos)
    decreases |ts| - p, 3
  {
    hide Balanced, At, Level, Suite;
    var e := Parsed(ts, p + 2);
    OneBalanced(ts, p);
    ExprBalanced(ts, p + 2);
    Behind(ts, p, p + 1, e.pos);
    SuiteBalanced(ts, e.pos);
    BalancedThen(ts, p, e.pos, Suite(ts, e.pos).pos);
  }

  lemma {:induction false} DefBalanced(ts: Toks, p: nat)
    requires p < |ts| && Quiet(DefRest(ts, p))
    ensures Balanced(ts, p, DefRest(ts, p).pos)
    ensures DefRest(ts, p).Err? ==> Stopped(ts, DefRest(ts, p).pos)
    decreases |ts| - p, 3
  {
    hide Balanced, At, Suite, Params;
    OneBalanced(ts, p);
    var q := Params(ts, p + 2).pos;
    ParamsBalanced(ts, p + 2);
    Behind(ts, p, p + 1, q);
    SuiteBalanced(ts, q + 1);
    Behind(ts, p, q, Suite(ts, q + 1).pos);
  }

  lemma ParamsBalanced(ts: Toks, p: nat)
    requires p < |ts| && Params(ts, p).Ok?
    ensures Balanced(ts, p, Params(ts, p).pos)
  {
    var q := Params(ts, p).pos;
    if ts[p].kind == RPAREN {
      EvenBalanced(ts, q, q);
    } else {
      ParamsFlat(ts, [], p);
      EvenBalanced(ts, p, q);
    }
  }

  lemma {:induction false} ParamsFlat(ts: Toks, before: seq<string>, p: nat)
    requires p < |ts| && MoreParams(ts, before, p).Ok?
    ensures Flat(ts, p, MoreParams(ts, before, p).pos)
    decreases |ts| - p
  {
    if ts[p + 1].kind == COMMA {
      ParamsFlat(ts, before + [ts[p].text], p + 2);
    }
  }

  lemma {:induction false} IfBalanced(ts: Toks, p: nat)
    requires p < |ts| && Quiet(IfRest(ts, p))
    ensures Balanced(ts, p, IfRest(ts, p).pos)
    ensures IfRest(ts, p).Err? ==> Stopped(ts, IfRest(ts, p).pos)
    decreases |ts| - p, 3
  {
    hide Balanced, At, Level, Suite, ElseRest;
    var c := Parsed(ts, p);
    ExprBalanced(ts, p);
    var b := Suite(ts, c.pos);
    SuiteBalanced(ts, c.pos);
    BalancedThen(ts, p, c.pos, b.pos);
    if b.Ok? {
      ElseBalanced(ts, b.pos);
      BalancedThen(ts, p, b.pos, ElseRest(ts, b.pos).pos);
    }
  }

  lemma {:induction false} ElseBalanced(ts: Toks, p: nat)
    requires p < |ts| && Quiet(ElseRest(ts, p))
    ensures Balanced(ts, p, ElseRest(ts, p).pos)
    ensures ElseRest(ts, p).Err? ==> Stopped(ts, ElseRest(ts, p).pos)
    decreases |ts| - p, 3
  {
    hide Balanced, At, Level, Suite, SkipLines, IfRest;
    var q := SkipLines(ts, p);
    LinesBalanced(ts, p);
    if ts[q].kind == ELIF {
      IfBalanced(ts, q + 1);
      Behind(ts, p, q, IfRest(ts, q + 1).pos);
    } else if ts[q].kind == ELSE {
      SuiteBalanced(ts, q + 1);
      Behind(ts, p, q, Suite(ts, q + 1).pos);
    }
  }

  lemma {:induction false} SuiteBalanced(ts: Toks, p: nat)
    requires p < |ts| && Quiet(Suite(ts, p))
    ensures Balanced(ts, p, Suite(ts, p).pos)
    ensures Suite(ts, p).Err? ==> Stopped(ts, Suite(ts, p).pos)
    decreases |ts| - p, 2
  {
    hide Balanced, At, Statement, Block;
    OneBalanced(ts, p);
    if ts[p + 1].kind == NEWLINE {
      var b := Block(ts, [], p + 3);
      BlocksBalanced(ts, [], p + 3);
      OneBalanced(ts, p + 1);
      BlockBalanced(ts, p + 2, b.pos);
      BalancedThen(ts, p, p + 1, p + 2);
      BalancedThen(ts, p, p + 2, b.pos + 1);
    } else {
      StatementBalanced(ts, p + 1);
      BalancedThen(ts, p, p + 1, Statement(ts, p + 1).pos);
    }
  }

  /** A block ends at a DEDENT or EOF. */
  lemma {:induction false} BlocksBalanced(ts: Toks, before: seq<Stmt>, p: nat)
    requires p < |ts| && Block(ts, before, p).Ok?
    ensures Balanced(ts, p, Block(ts, before, p).pos) && Stopped(ts, Block(ts, before, p).pos)
    decreases |ts| - p, 4
  {
    hide Balanced, At, Statement, SkipLines;
    var q := SkipLines(ts, p);
    LinesBalanced(ts, p);
    if ts[q].kind !in {DEDENT, EOF} {
      var s := Statement(ts, q);
      StatementBalanced(ts, q);
      BalancedThen(ts, p, q, s.pos);
      if s.Ok? {
        BlocksBalanced(ts, before + [s.v], s.pos);
        BalancedThen(ts, p, s.pos, Block(ts, before, p).pos);
      }
    }
  }
}
