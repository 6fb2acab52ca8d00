/** A printer for statements, blocks and modules, and that parsing undoes it. */
module PyShow {
  import opened Wrappers
  import opened PyTokens
  import opened PyGrammar
  import opened PyPrint

  // ---- printing ----

  /** Trees the parser can build: operators are those of their nodes, and what follows `elif` is an `if`. */
  ghost predicate GoodStmt(s: Stmt) {
    match s
    case Return(v) => v.Some? ==> Good(v.value)
    case If(c, b, e) => Good(c) && GoodBlock(b) && GoodElse(e)
    case While(c, b) => Good(c) && GoodBlock(b)
    case For(_, o, b) => Good(o) && GoodBlock(b)
    case Def(_, _, b) => GoodBlock(b)
    case Assign(_, v) => Good(v)
    case ExprStmt(e) => Good(e)
    case _ => true
  }

  ghost predicate GoodElse(e: Else) {
    match e
    case NoElse => true
    case Elif(s) => s.If? && GoodStmt(s)
    case ElseBlock(b) => GoodBlock(b)
  }

  ghost predicate GoodBlock(b: seq<Stmt>) { forall i :: 0 <= i < |b| ==> GoodStmt(b[i]) }

  function NameTok(n: string): Tok { Tok(NAME, n, 0) }

  const EOL: Tok := Plain(NEWLINE)

  function ShowParams(ps: seq<string>): seq<Tok> {
    if ps == [] then [] else if |ps| == 1 then [NameTok(ps[0])]
      else [NameTok(ps[0]), Plain(COMMA)] + ShowParams(ps[1..])
  }

  /** A statement, each on lines of its own and each block indented. */
  function Show(s: Stmt): (w: seq<Tok>)
    decreases s, 1
  {
    match s
    case Pass => [Sym(PASS), EOL]
    case Return(v) => if v.None? then [Sym(RETURN), EOL] else [Sym(RETURN)] + (Shown(v.value, OR_LEVEL) + [EOL])
    case Import(n) => [Sym(IMPORT), NameTok(n), EOL]
    case Assign(n, v) => [NameTok(n), Plain(EQ)] + (Shown(v, OR_LEVEL) + [EOL])
    case ExprStmt(e) => Shown(e, OR_LEVEL) + [EOL]
    case If(_, _, _) => [Sym(IF)] + ShowIf(s)
    case While(c, b) => [Sym(WHILE)] + (Shown(c, OR_LEVEL) + ShowSuite(b))
    case For(t, o, b) => [Sym(FOR), NameTok(t), Sym(IN)] + (Shown(o, OR_LEVEL) + ShowSuite(b))
    case Def(n, ps, b) => [Sym(DEF), NameTok(n), Plain(LPAREN)] + (ShowParams(ps) + ([Plain(RPAREN)] + ShowSuite(b)))
  }

  /** What follows `if` or `elif`. */
  function ShowIf(s: Stmt): (w: seq<Tok>)
    requires s.If?
    decreases s, 0
  {
    Shown(s.cond, OR_LEVEL) + (ShowSuite(s.thenPart) + ShowElse(s.elsePart))
  }

  function ShowElse(e: Else): (w: seq<Tok>)
    decreases e, 1
  {
    match e
    case NoElse => []
    case Elif(s) => if s.If? then [Sym(ELIF)] + ShowIf(s) else []
    case ElseBlock(b) => [Sym(ELSE)] + ShowSuite(b)
  }

  function ShowSuite(b: seq<Stmt>): (w: seq<Tok>)
    decreases b, 3
  {
    [Plain(COLON), EOL, Plain(INDENT)] + (ShowBlock(b) + [Plain(DEDENT)])
  }

  function ShowBlock(b: seq<Stmt>): (w: seq<Tok>)
    decreases b, 2
  {
    if b == [] then [] else Show(b[0]) + ShowBlock(b[1..])
  }

  // ---- parsing what was printed ----

  lemma StandsTwo(ts: Toks, p: nat, a: Tok, b: Tok, w: seq<Tok>)
    requires StandsAt(ts, p, [a, b] + w)
    ensures p + 2 < |ts| && ts[p] == a && ts[p + 1] == b && StandsAt(ts, p + 2, w)
  {
    assert [a, b] == [a] + [b];
    StandsSplit(ts, p, [a, b], w);
    StandsSplit(ts, p, [a], [b]);
    StandsTok(ts, p, a);
    StandsTok(ts, p + 1, b);
  }

  lemma StandsOne(ts: Toks, p: nat, a: Tok, w: seq<Tok>)
    requires StandsAt(ts, p, [a] + w)
    ensures p + 1 < |ts| && ts[p] == a && StandsAt(ts, p + 1, w)
  {
    StandsSplit(ts, p, [a], w);
    StandsTok(ts, p, a);
  }

  lemma LineStops()
    ensures Stops(NEWLINE, OR_LEVEL) && Stops(COLON, OR_LEVEL)
  {
  }

  /** A printed expression and what stands behind it. */
  lemma ExprAt(n: Expr, w: seq<Tok>, ts: Toks, p: nat)
    requires Good(n) && StandsAt(ts, p, Shown(n, OR_LEVEL) + w) && |w| > 0 && w[0].kind in {NEWLINE, COLON}
    ensures var q := p + |Shown(n, OR_LEVEL)|; Parsed(ts, p) == Ok(n, q) && StandsAt(ts, q, w) && ts[q] == w[0]
  {
    hide Shown, Level, Good, Stops;
    LineStops();
    StandsSplit(ts, p, Shown(n, OR_LEVEL), w);
    var q := p + |Shown(n, OR_LEVEL)|;
    assert ts[q] == ts[q..q + |w|][0];
    AtLevel(n, OR_LEVEL, ts, p);
  }

  /** What may stand behind a statement. */
  predicate Follows(k: Kind) { k !in {NEWLINE, ELIF, ELSE} }

  lemma {:induction false} ParamsAt(ps: seq<string>, before: seq<string>, ts: Toks, p: nat)
    requires |ps| > 0 && StandsAt(ts, p, ShowParams(ps)) && ts[p + |ShowParams(ps)|].kind == RPAREN
    ensures MoreParams(ts, before, p) == Ok(before + ps, p + |ShowParams(ps)|)
    decreases |ps|
  {
    hide StandsAt;
    if |ps| == 1 {
      StandsTok(ts, p, NameTok(ps[0]));
      assert before + ps == before + [ps[0]];
    } else {
      StandsTwo(ts, p, NameTok(ps[0]), Plain(COMMA), ShowParams(ps[1..]));
      ParamsAt(ps[1..], before + [ps[0]], ts, p + 2);
      assert before + [ps[0]] + ps[1..] == before + ps;
    }
  }

  lemma AllParams(ps: seq<string>, ts: Toks, p: nat)
    requires StandsAt(ts, p, ShowParams(ps)) && ts[p + |ShowParams(ps)|].kind == RPAREN
    ensures Params(ts, p) == Ok(ps, p + |ShowParams(ps)|)
  {
    if ps != [] {
      ParamsAt(ps, [], ts, p);
      assert ts[p] == ts[p..p + |ShowParams(ps)|][0];
      assert [] + ps == ps;
      hide MoreParams;
      assert ShowParams(ps)[0] == NameTok(ps[0]);
    }
  }

  /** What a printed statement begins with. */
  lemma ShowFirst(s: Stmt)
    requires GoodStmt(s)
    ensures |Show(s)| > 0 && Follows(Show(s)[0].kind) && Show(s)[0].kind !in {EOF, DEDENT}
  {
    hide Shown, ShowSuite, ShowIf;
    if s.ExprStmt? {
      ShownFirst(s.e, OR_LEVEL);
    }
  }

  lemma NoSkip(ts: Toks, p: nat)
    requires p < |ts| && ts[p].kind != NEWLINE
    ensures SkipLines(ts, p) == p
  {
  }

  lemma StatementIs(ts: Toks, p: nat)
    requires p < |ts| && ts[p].kind !in {NEWLINE, EOF, DEDENT}
    ensures Statement(ts, p) == if ts[p].kind in {IF, WHILE, FOR, DEF} then Compound(ts, p) else OneLine(ts, p)
  {
    hide Compound, OneLine;
  }

  lemma StandsIn(ts: Toks, p: nat, w: seq<Tok>)
    requires StandsAt(ts, p, w)
    ensures p + |w| < |ts|
  {
  }

  // ---- statements without a block ----

  lemma PassAt(ts: Toks, p: nat)
    requires StandsAt(ts, p, Show(Pass))
    ensures Statement(ts, p) == Ok(Pass, p + |Show(Pass)|)
  {
    hide StandsAt, Statement;
    assert Show(Pass) == [Sym(PASS), EOL] + [];
    StandsTwo(ts, p, Sym(PASS), EOL, []);
    StatementIs(ts, p);
  }

  lemma ImportAt(n: string, ts: Toks, p: nat)
    requires StandsAt(ts, p, Show(Import(n)))
    ensures Statement(ts, p) == Ok(Import(n), p + |Show(Import(n))|)
  {
    hide StandsAt, Statement;
    assert Show(Import(n)) == [Sym(IMPORT), NameTok(n)] + [EOL];
    StandsTwo(ts, p, Sym(IMPORT), NameTok(n), [EOL]);
    StandsTok(ts, p + 2, EOL);
    StatementIs(ts, p);
  }

  lemma ReturnAt(v: Option<Expr>, ts: Toks, p: nat)
    requires (v.Some? ==> Good(v.value)) && StandsAt(ts, p, Show(Return(v)))
    ensures Statement(ts, p) == Ok(Return(v), p + |Show(Return(v))|)
  {
    hide StandsAt, Statement, Shown, Good, Parsed;
    if v.None? {
      assert Show(Return(v)) == [Sym(RETURN), EOL] + [];
      StandsTwo(ts, p, Sym(RETURN), EOL, []);
    } else {
      StandsOne(ts, p, Sym(RETURN), Shown(v.value, OR_LEVEL) + [EOL]);
      ExprHead(v.value, [EOL], ts, p + 1);
      ExprAt(v.value, [EOL], ts, p + 1);
    }
    LineOf(Return(v), ts, p);
  }

  /** Reading a statement of one line is reading what follows its first token. */
  lemma LineOf(s: Stmt, ts: Toks, p: nat)
    requires p < |ts| && (s.Return? ==> ts[p].kind == RETURN)
    requires (s.Assign? ==> ts[p].kind == NAME && ts[p + 1].kind == EQ)
    ensures s.Return? ==> Statement(ts, p) == ReturnRest(ts, p + 1)
    ensures s.Assign? ==> Statement(ts, p) == Simple(ts, p)
  {
    hide Statement, ReturnRest, Simple, Parsed;
    if s.Return? || s.Assign? {
      StatementIs(ts, p);
    }
  }

  lemma AssignAt(n: string, v: Expr, ts: Toks, p: nat)
    requires Good(v) && StandsAt(ts, p, Show(Assign(n, v)))
    ensures Statement(ts, p) == Ok(Assign(n, v), p + |Show(Assign(n, v))|)
  {
    hide StandsAt, Statement, Shown, Good, Parsed;
    StandsTwo(ts, p, NameTok(n), Plain(EQ), Shown(v, OR_LEVEL) + [EOL]);
    ExprAt(v, [EOL], ts, p + 2);
    LineOf(Assign(n, v), ts, p);
  }

  lemma ExprStmtAt(e: Expr, ts: Toks, p: nat)
    requires Good(e) && StandsAt(ts, p, Show(ExprStmt(e)))
    ensures Statement(ts, p) == Ok(ExprStmt(e), p + |Show(ExprStmt(e))|)
  {
    hide StandsAt, Statement, Shown, Good, Parsed;
    StandsIn(ts, p, Show(ExprStmt(e)));
    ExprHead(e, [EOL], ts, p);
    ExprAt(e, [EOL], ts, p);
    NotAssigned(e, ts, p);
    StatementIs(ts, p);
  }

  lemma ExprHead(n: Expr, w: seq<Tok>, ts: Toks, p: nat)
    requires Good(n) && StandsAt(ts, p, Shown(n, OR_LEVEL) + w)
    ensures p < |ts| && Starts(ts[p].kind)
  {
    hide Good, Shown, Starts;
    ShownFirst(n, OR_LEVEL);
    assert ts[p] == ts[p..p + |Shown(n, OR_LEVEL) + w|][0];
  }

  /** No expression that parses begins with a name and an equals sign. */
  lemma NotAssigned(e: Expr, ts: Toks, p: nat)
    requires p + 1 < |ts| && Parsed(ts, p).Ok? && ts[Parsed(ts, p).pos].kind == NEWLINE
    ensures !(ts[p].kind == NAME && ts[p + 1].kind == EQ)
  {
    hide Level;
    if ts[p].kind == NAME && ts[p + 1].kind == EQ {
      NameOnly(ts, p, OR_LEVEL);
    }
  }

  lemma {:induction false} NameOnly(ts: Toks, p: nat, level: nat)
    requires p + 1 < |ts| && ts[p].kind == NAME && ts[p + 1].kind == EQ && level <= PRIMARY_LEVEL
    ensures Level(ts, p, level) == Ok(Name(ts[p].text), p + 1)
    decreases PRIMARY_LEVEL - level
  {
    if level < PRIMARY_LEVEL {
      NameOnly(ts, p, level + 1);
    }
  }

  // ---- statements with blocks ----

  lemma {:induction false} StmtAt(s: Stmt, ts: Toks, p: nat)
    requires GoodStmt(s) && StandsAt(ts, p, Show(s)) && Follows(ts[p + |Show(s)|].kind)
    ensures Statement(ts, p) == Ok(s, p + |Show(s)|)
    decreases s, 5
  {
    hide StandsAt, Statement, Good, Show, Follows, GoodBlock, GoodElse;
    match s
    case Pass => PassAt(ts, p);
    case Return(v) => ReturnAt(v, ts, p);
    case Import(n) => ImportAt(n, ts, p);
    case Assign(n, v) => AssignAt(n, v, ts, p);
    case ExprStmt(e) => ExprStmtAt(e, ts, p);
    case If(_, _, _) => IfStmtAt(s, ts, p);
    case While(_, _) => WhileAt(s, ts, p);
    case For(_, _, _) => ForAt(s, ts, p);
    case Def(_, _, _) => DefAt(s, ts, p);
  }

  lemma {:induction false} IfStmtAt(s: Stmt, ts: Toks, p: nat)
    requires s.If? && GoodStmt(s) && StandsAt(ts, p, Show(s)) && Follows(ts[p + |Show(s)|].kind)
    ensures Statement(ts, p) == Ok(s, p + |Show(s)|)
    decreases s, 4
  {
    hide StandsAt, Statement, Good, Show, Follows, GoodBlock, GoodElse, Suite, IfRest, Params, Parsed, Shown, ShowSuite,
         ShowIf, ShowParams;
    IfHead(s, ts, p);
    IfAt(s, ts, p + 1);
    IfWhole(s, ts, p, p + |Show(s)|);
  }

  lemma {:induction false} WhileAt(s: Stmt, ts: Toks, p: nat)
    requires s.While? && GoodStmt(s) && StandsAt(ts, p, Show(s)) && Follows(ts[p + |Show(s)|].kind)
    ensures Statement(ts, p) == Ok(s, p + |Show(s)|)
    decreases s, 4
  {
    hide StandsAt, Statement, Good, Show, Follows, GoodBlock, GoodElse, Suite, IfRest, Params, Parsed, Shown, ShowSuite,
         ShowIf, ShowParams;
    WhileHead(s.cond, s.body, ts, p);
    SuiteAt(s.body, ts, p + 1 + |Shown(s.cond, OR_LEVEL)|);
    WhileWhole(s.cond, s.body, ts, p, p + |Show(s)|);
  }

  lemma {:induction false} ForAt(s: Stmt, ts: Toks, p: nat)
    requires s.For? && GoodStmt(s) && StandsAt(ts, p, Show(s)) && Follows(ts[p + |Show(s)|].kind)
    ensures Statement(ts, p) == Ok(s, p + |Show(s)|)
    decreases s, 4
  {
    hide StandsAt, Statement, Good, Show, Follows, GoodBlock, GoodElse, Suite, IfRest, Params, Parsed, Shown, ShowSuite,
         ShowIf, ShowParams;
    ForHead(s.target, s.over, s.body, ts, p);
    SuiteAt(s.body, ts, p + 3 + |Shown(s.over, OR_LEVEL)|);
    ForWhole(s.target, s.over, s.body, ts, p, p + |Show(s)|);
  }

  lemma {:induction false} DefAt(s: Stmt, ts: Toks, p: nat)
    requires s.Def? && GoodStmt(s) && StandsAt(ts, p, Show(s)) && Follows(ts[p + |Show(s)|].kind)
    ensures Statement(ts, p) == Ok(s, p + |Show(s)|)
    decreases s, 4
  {
    hide StandsAt, Statement, Good, Show, Follows, GoodBlock, GoodElse, Suite, IfRest, Params, Parsed, Shown, ShowSuite,
         ShowIf, ShowParams;
    DefHead(s.name, s.params, s.body, ts, p);
    SuiteAt(s.body, ts, p + 4 + |ShowParams(s.params)|);
    DefWhole(s.name, s.params, s.body, ts, p, p + |Show(s)|);
  }

  lemma IfHead(s: Stmt, ts: Toks, p: nat)
    requires s.If? && StandsAt(ts, p, Show(s))
    ensures p + 1 < |ts| && ts[p].kind == IF && StandsAt(ts, p + 1, ShowIf(s)) && |Show(s)| == 1 + |ShowIf(s)|
  {
    hide StandsAt, ShowIf;
    StandsOne(ts, p, Sym(IF), ShowIf(s));
  }

  lemma IfWhole(s: Stmt, ts: Toks, p: nat, q: nat)
    requires p + 1 < |ts| && ts[p].kind == IF && q < |ts| && IfRest(ts, p + 1) == Ok(s, q)
    ensures Statement(ts, p) == Ok(s, q)
  {
    hide IfRest, Statement;
    StatementIs(ts, p);
  }

  lemma WhileHead(c: Expr, b: seq<Stmt>, ts: Toks, p: nat)
    requires Good(c) && StandsAt(ts, p, Show(While(c, b)))
    ensures var q := p + 1 + |Shown(c, OR_LEVEL)|;
      && p + 1 < |ts| && ts[p].kind == WHILE && q < |ts| && Parsed(ts, p + 1) == Ok(c, q)
      && StandsAt(ts, q, ShowSuite(b))
      && p + |Show(While(c, b))| == q + |ShowSuite(b)|
  {
    hide StandsAt, Shown, ShowSuite, Good, Parsed;
    StandsOne(ts, p, Sym(WHILE), Shown(c, OR_LEVEL) + ShowSuite(b));
    HeadAt(c, b, ts, p + 1);
  }

  lemma WhileWhole(c: Expr, b: seq<Stmt>, ts: Toks, p: nat, q: nat)
    requires p + 1 < |ts| && ts[p].kind == WHILE && q < |ts| && Parsed(ts, p + 1).Ok? && Parsed(ts, p + 1).v == c
    requires Suite(ts, Parsed(ts, p + 1).pos) == Ok(b, q)
    ensures Statement(ts, p) == Ok(While(c, b), q)
  {
    hide Parsed, Suite, Statement;
    StatementIs(ts, p);
  }

  lemma ForHead(t: string, o: Expr, b: seq<Stmt>, ts: Toks, p: nat)
    requires Good(o) && StandsAt(ts, p, Show(For(t, o, b)))
    ensures var q := p + 3 + |Shown(o, OR_LEVEL)|;
      && p + 3 < |ts| && ts[p].kind == FOR && ts[p + 1] == NameTok(t) && ts[p + 2].kind == IN
      && q < |ts| && Parsed(ts, p + 3) == Ok(o, q) && StandsAt(ts, q, ShowSuite(b))
      && p + |Show(For(t, o, b))| == q + |ShowSuite(b)|
  {
    hide StandsAt, Shown, ShowSuite, Good, Parsed;
    var w := Shown(o, OR_LEVEL) + ShowSuite(b);
    assert Show(For(t, o, b)) == [Sym(FOR), NameTok(t)] + ([Sym(IN)] + w);
    StandsTwo(ts, p, Sym(FOR), NameTok(t), [Sym(IN)] + w);
    StandsOne(ts, p + 2, Sym(IN), w);
    HeadAt(o, b, ts, p + 3);
  }

  lemma ForWhole(t: string, o: Expr, b: seq<Stmt>, ts: Toks, p: nat, q: nat)
    requires p + 3 < |ts| && ts[p].kind == FOR && ts[p + 1] == NameTok(t) && ts[p + 2].kind == IN && q < |ts|
    requires Parsed(ts, p + 3).Ok? && Parsed(ts, p + 3).v == o && Suite(ts, Parsed(ts, p + 3).pos) == Ok(b, q)
    ensures Statement(ts, p) == Ok(For(t, o, b), q)
  {
    hide Parsed, Suite, Statement;
    StatementIs(ts, p);
  }

  lemma DefWhole(n: string, ps: seq<string>, b: seq<Stmt>, ts: Toks, p: nat, q: nat)
    requires p + 3 < |ts| && ts[p].kind == DEF && ts[p + 1] == NameTok(n) && ts[p + 2].kind == LPAREN && q < |ts|
    requires Params(ts, p + 3).Ok? && Params(ts, p + 3).v == ps && ts[Params(ts, p + 3).pos].kind == RPAREN
    requires Suite(ts, Params(ts, p + 3).pos + 1) == Ok(b, q)
    ensures Statement(ts, p) == Ok(Def(n, ps, b), q)
  {
    hide Params, Suite, Statement;
    StatementIs(ts, p);
  }

  lemma HeadAt(c: Expr, b: seq<Stmt>, ts: Toks, p: nat)
    requires Good(c) && StandsAt(ts, p, Shown(c, OR_LEVEL) + ShowSuite(b))
    ensures var q := p + |Shown(c, OR_LEVEL)|; Parsed(ts, p) == Ok(c, q) && StandsAt(ts, q, ShowSuite(b))
  {
    hide Shown, Good, Parsed, StandsAt, ShowBlock;
    ExprAt(c, ShowSuite(b), ts, p);
  }

  lemma DefHead(n: string, ps: seq<string>, b: seq<Stmt>, ts: Toks, p: nat)
    requires StandsAt(ts, p, Show(Def(n, ps, b)))
    ensures var q := p + 3 + |ShowParams(ps)|;
      && p + 3 < |ts| && ts[p] == Sym(DEF) && p + |Show(Def(n, ps, b))| == q + 1 + |ShowSuite(b)|
      && ts[p + 1] == NameTok(n) && ts[p + 2].kind == LPAREN
      && Params(ts, p + 3) == Ok(ps, q) && q < |ts| && ts[q].kind == RPAREN && StandsAt(ts, q + 1, ShowSuite(b))
  {
    hide StandsAt, ShowSuite, ShowParams, Params, Show;
    ShowDef(n, ps, b);
    var w := ShowParams(ps) + ([Plain(RPAREN)] + ShowSuite(b));
    StandsTwo(ts, p, Sym(DEF), NameTok(n), [Plain(LPAREN)] + w);
    StandsOne(ts, p + 2, Plain(LPAREN), w);
    StandsSplit(ts, p + 3, ShowParams(ps), [Plain(RPAREN)] + ShowSuite(b));
    StandsOne(ts, p + 3 + |ShowParams(ps)|, Plain(RPAREN), ShowSuite(b));
    AllParams(ps, ts, p + 3);
  }

  lemma ShowDef(n: string, ps: seq<string>, b: seq<Stmt>)
    ensures Show(Def(n, ps, b)) == [Sym(DEF), NameTok(n)]
      + ([Plain(LPAREN)] + (ShowParams(ps) + ([Plain(RPAREN)] + ShowSuite(b))))
  {
    hide ShowParams, ShowSuite;
  }

  lemma {:induction false} IfAt(s: Stmt, ts: Toks, p: nat)
    requires s.If? && GoodStmt(s) && StandsAt(ts, p, ShowIf(s)) && Follows(ts[p + |ShowIf(s)|].kind)
    ensures IfRest(ts, p) == Ok(s, p + |ShowIf(s)|)
    decreases s, 3
  {
    hide Shown, StandsAt, Parsed, Good, ShowSuite, ShowElse, Suite, ElseRest;
    var h, w, e := Shown(s.cond, OR_LEVEL), ShowSuite(s.thenPart), ShowElse(s.elsePart);
    SuiteFirst(s.thenPart, e);
    ExprAt(s.cond, w + e, ts, p);
    StandsSplit(ts, p + |h|, w, e);
    SuiteAt(s.thenPart, ts, p + |h|);
    ElseAt(s.elsePart, ts, p + |h| + |w|);
  }

  lemma SuiteFirst(b: seq<Stmt>, e: seq<Tok>)
    ensures |ShowSuite(b)| > 0 && (ShowSuite(b) + e)[0].kind == COLON
  {
    hide ShowBlock;
  }

  lemma {:induction false} ElseAt(e: Else, ts: Toks, p: nat)
    requires GoodElse(e) && StandsAt(ts, p, ShowElse(e)) && Follows(ts[p + |ShowElse(e)|].kind)
    ensures ElseRest(ts, p) == Ok(e, p + |ShowElse(e)|)
    decreases e, 4
  {
    hide StandsAt, ShowSuite, Suite, IfRest, ShowIf, ElseRest, GoodStmt, GoodBlock;
    match e
    case NoElse =>
      StandsIn(ts, p, []);
      ElseWhole(e, ts, p, p);
    case Elif(s) =>
      StandsOne(ts, p, Sym(ELIF), ShowIf(s));
      IfAt(s, ts, p + 1);
      ElseWhole(e, ts, p, p + |ShowElse(e)|);
    case ElseBlock(b) =>
      StandsOne(ts, p, Sym(ELSE), ShowSuite(b));
      SuiteAt(b, ts, p + 1);
      ElseWhole(e, ts, p, p + |ShowElse(e)|);
  }

  lemma ElseWhole(e: Else, ts: Toks, p: nat, q: nat)
    requires p < |ts| && q < |ts| && (e.NoElse? ==> p == q && Follows(ts[p].kind))
    requires e.Elif? ==> ts[p].kind == ELIF && p + 1 < |ts| && IfRest(ts, p + 1) == Ok(e.s, q)
    requires e.ElseBlock? ==> ts[p].kind == ELSE && p + 1 < |ts| && Suite(ts, p + 1) == Ok(e.b, q)
    ensures ElseRest(ts, p) == Ok(e, q)
  {
    hide IfRest, Suite, SkipLines;
    NoSkip(ts, p);
  }

  lemma {:induction false} SuiteAt(b: seq<Stmt>, ts: Toks, p: nat)
    requires GoodBlock(b) && StandsAt(ts, p, ShowSuite(b))
    ensures Suite(ts, p) == Ok(b, p + |ShowSuite(b)|)
    decreases b, 6
  {
    hide StandsAt, ShowBlock, Block, Statement;
    var w := ShowBlock(b);
    assert ShowSuite(b) == [Plain(COLON), EOL] + ([Plain(INDENT)] + (w + [Plain(DEDENT)]));
    StandsTwo(ts, p, Plain(COLON), EOL, [Plain(INDENT)] + (w + [Plain(DEDENT)]));
    StandsOne(ts, p + 2, Plain(INDENT), w + [Plain(DEDENT)]);
    StandsSplit(ts, p + 3, w, [Plain(DEDENT)]);
    StandsTok(ts, p + 3 + |w|, Plain(DEDENT));
    BlockAt(b, [], ts, p + 3);
    assert [] + b == b;
  }

  lemma {:induction false} BlockAt(b: seq<Stmt>, before: seq<Stmt>, ts: Toks, p: nat)
    requires GoodBlock(b) && StandsAt(ts, p, ShowBlock(b)) && ts[p + |ShowBlock(b)|].kind in {DEDENT, EOF}
    ensures Block(ts, before, p) == Ok(before + b, p + |ShowBlock(b)|)
    decreases b, 5
  {
    hide StandsAt, Show, Statement, GoodStmt, Block;
    if b == [] {
      StandsIn(ts, p, []);
      BlockEnd(ts, before, p);
      assert before + b == before;
    } else {
      OneMore(b, ts, p);
      StmtAt(b[0], ts, p);
      BlockStep(ts, before, p, b[0], p + |Show(b[0])|);
      BlockAt(b[1..], before + [b[0]], ts, p + |Show(b[0])|);
      assert before + [b[0]] + b[1..] == before + b;
    }
  }

  lemma BlockEnd(ts: Toks, before: seq<Stmt>, p: nat)
    requires p < |ts| && ts[p].kind in {DEDENT, EOF}
    ensures Block(ts, before, p) == Ok(before, p)
  {
    NoSkip(ts, p);
  }

  lemma BlockStep(ts: Toks, before: seq<Stmt>, p: nat, s: Stmt, q: nat)
    requires p < |ts| && q < |ts| && ts[p].kind !in {NEWLINE, DEDENT, EOF} && Statement(ts, p) == Ok(s, q)
    ensures Block(ts, before, p) == Block(ts, before + [s], q)
  {
    hide Statement;
    NoSkip(ts, p);
  }

  /** The first statement of a printed block and the rest of it. */
  lemma OneMore(b: seq<Stmt>, ts: Toks, p: nat)
    requires |b| > 0 && GoodBlock(b) && StandsAt(ts, p, ShowBlock(b)) && ts[p + |ShowBlock(b)|].kind in {DEDENT, EOF}
    ensures var q := p + |Show(b[0])|;
      && StandsAt(ts, p, Show(b[0])) && StandsAt(ts, q, ShowBlock(b[1..]))
      && |ShowBlock(b)| == |Show(b[0])| + |ShowBlock(b[1..])|
      && q < |ts| && Follows(ts[q].kind) && ts[p].kind !in {NEWLINE, DEDENT, EOF} && SkipLines(ts, p) == p
  {
    hide Show;
    var q := p + |Show(b[0])|;
    StandsSplit(ts, p, Show(b[0]), ShowBlock(b[1..]));
    ShowFirst(b[0]);
    assert ts[p] == ts[p..q][0];
    NoSkip(ts, p);
    if |b| > 1 {
      ShowFirst(b[1]);
      assert ShowBlock(b[1..])[0] == Show(b[1])[0];
      assert ts[q] == ts[q..q + |ShowBlock(b[1..])|][0];
    }
  }

  lemma {:induction false} ModuleAt(b: seq<Stmt>, before: seq<Stmt>, ts: Toks, p: nat)
    requires GoodBlock(b) && StandsAt(ts, p, ShowBlock(b)) && ts[p + |ShowBlock(b)|].kind == EOF
    ensures Module(ts, before, p) == Ok(before + b, p + |ShowBlock(b)|)
    decreases |b|
  {
    hide StandsAt, Show, Statement, GoodStmt;
    if b == [] {
      StandsIn(ts, p, []);
      NoSkip(ts, p);
      assert before + b == before;
    } else {
      OneMore(b, ts, p);
      StmtAt(b[0], ts, p);
      ModuleAt(b[1..], before + [b[0]], ts, p + |Show(b[0])|);
      assert before + [b[0]] + b[1..] == before + b;
    }
  }

  /** For every module the parser can build, parsing the printed tokens gives exactly that module. */
  lemma ModuleShown(b: seq<Stmt>)
    requires GoodBlock(b)
    ensures var ts: Toks := ShowBlock(b) + [Plain(EOF)]; Module(ts, [], 0) == Ok(b, |ts| - 1)
  {
    hide GoodBlock, ShowBlock, Module;
    var w := ShowBlock(b);
    var ts: Toks := w + [Plain(EOF)];
    assert ts[0..0 + |w|] == w;
    ModuleAt(b, [], ts, 0);
    assert [] + b == b;
  }
}
