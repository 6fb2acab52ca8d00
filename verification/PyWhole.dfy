/** Lexer and parser together: exactly when parsing drops a statement without a word. */
module PyWhole {
  import opened Wrappers
  import opened PyTokens
  import opened PyGrammar
  import opened PyBalance
  import opened PyPrint
  import PyLexer

  // ---- nothing dropped ----

  /** No statement at or inside the one at `p0` was tried and given up without a message. */
  ghost predicate StatementKept(ts: Toks, p0: nat)
    requires p0 < |ts|
    decreases |ts| - p0, 3
  {
    var p := SkipLines(ts, p0);
    match ts[p].kind
    case IF => IfKept(ts, p + 1)
    case WHILE => WhileKept(ts, p + 1)
    case FOR => ForKept(ts, p + 1)
    case DEF => DefKept(ts, p + 1)
    case _ => true
  }

  ghost predicate WhileKept(ts: Toks, p: nat)
    requires p < |ts|
    decreases |ts| - p, 3
  {
    Parsed(ts, p).Ok? ==> SuiteKept(ts, Parsed(ts, p).pos)
  }

  ghost predicate ForKept(ts: Toks, p: nat)
    requires p < |ts|
    decreases |ts| - p, 3
  {
    ts[p].kind == NAME && ts[p + 1].kind == IN && Parsed(ts, p + 2).Ok? ==> SuiteKept(ts, Parsed(ts, p + 2).pos)
  }

  ghost predicate DefKept(ts: Toks, p: nat)
    requires p < |ts|
    decreases |ts| - p, 3
  {
    ts[p].kind == NAME && ts[p + 1].kind == LPAREN ==>
      var ps := Params(ts, p + 2);
      ps.Ok? && ts[ps.pos].kind == RPAREN ==> SuiteKept(ts, ps.pos + 1)
  }

  ghost predicate IfKept(ts: Toks, p: nat)
    requires p < |ts|
    decreases |ts| - p, 3
  {
    var c := Parsed(ts, p);
    c.Ok? ==> SuiteKept(ts, c.pos) && (Suite(ts, c.pos).Ok? ==> ElseKept(ts, Suite(ts, c.pos).pos))
  }

  ghost predicate ElseKept(ts: Toks, p: nat)
    requires p < |ts|
    decreases |ts| - p, 3
  {
    var q := SkipLines(ts, p);
    match ts[q].kind
    case ELIF => IfKept(ts, q + 1)
    case ELSE => SuiteKept(ts, q + 1)
    case _ => true
  }

  ghost predicate SuiteKept(ts: Toks, p: nat)
    requires p < |ts|
    decreases |ts| - p, 2
  {
    ts[p].kind == COLON ==>
      if ts[p + 1].kind == NEWLINE then ts[p + 2].kind == INDENT ==> BlockKept(ts, p + 3)
      else StatementKept(ts, p + 1)
  }

  ghost predicate BlockKept(ts: Toks, p: nat)
    requires p < |ts|
    decreases |ts| - p, 4
  {
    var q := SkipLines(ts, p);
    ts[q].kind in {DEDENT, EOF} ||
    var s := Statement(ts, q);
    if s.Ok? then StatementKept(ts, q) && BlockKept(ts, s.pos) else s.e != Silent
  }

  /** The same for a whole module, which must go on to EOF. */
  ghost predicate ModuleKept(ts: Toks, p: nat)
    requires p < |ts|
    decreases |ts| - p
  {
    var q := SkipLines(ts, p);
    ts[q].kind == EOF ||
    var s := Statement(ts, q);
    if s.Ok? then StatementKept(ts, q) && ModuleKept(ts, s.pos) else s.e != Silent
  }

  // ---- the tokens of a source ----

  /** The colon that nothing follows; the number of tokens if there is none. */
  function OpenColon(ts: seq<Tok>): nat { if EndsOpen(ts) then Tail(ts) - 1 else |ts| }

  lemma InNest(ts: seq<Tok>, p: nat)
    requires Lexical(ts) && p <= |ts|
    ensures At(ts, p) >= 0
    ensures p < |ts| && ts[p].kind == EOF ==> At(ts, p) == 0 && p == |ts| - 1
    ensures p < |ts| && ts[p].kind == DEDENT ==> At(ts, p) > 0
  {
    if p < |ts| {
      AtStep(ts, p);
      if ts[p].kind == EOF {
        assert ts[..|ts|] == ts;
      }
    }
  }

  /** A colon is followed by a DEDENT or EOF exactly if nothing else follows it. */
  lemma ColonOpen(ts: seq<Tok>, p: nat)
    requires Lexical(ts) && p + 1 < |ts| && ts[p].kind == COLON
    ensures p == OpenColon(ts) <==> ts[p + 1].kind in {DEDENT, EOF}
  {
    var t := Tail(ts);
    if ts[p + 1].kind in {DEDENT, EOF} {
      assert t <= p + 1 && p < t;
    }
  }

  lemma ColonThere(ts: seq<Tok>)
    ensures OpenColon(ts) <= |ts| && (OpenColon(ts) < |ts| ==> ts[OpenColon(ts)].kind == COLON)
  {}

  lemma NotIn(ts: seq<Tok>, a: nat, b: nat)
    requires a <= b <= |ts| && forall i :: a <= i < b ==> ts[i].kind != COLON
    ensures !(a <= OpenColon(ts) < b)
  {
    ColonThere(ts);
  }

  /**
   * What becomes of a parse from `p`: if it goes well nothing was dropped unless the open colon was passed; if not
   * there is a message, or what the open colon announces is missing.
   */
  ghost predicate Fate<T>(ts: Toks, p: nat, r: Res<T>, kept: bool) {
    var c := OpenColon(ts);
    if r.Ok? then kept <==> !(p <= c < r.pos) else Plausible(r.e) || (r.e == Silent && p <= c && r.pos == c + 1)
  }

  // ---- statements ----

  lemma {:induction false} StatementFate(ts: Toks, p0: nat)
    requires Lexical(ts) && p0 < |ts| && ts[SkipLines(ts, p0)].kind !in {EOF, DEDENT}
    ensures Fate(ts, p0, Statement(ts, p0), StatementKept(ts, p0))
    decreases |ts| - p0, 3
  {
    hide Lexical, Compound, OneLine, SkipLines, OpenColon, IfKept, WhileKept, ForKept, DefKept, Flat;
    var p := SkipLines(ts, p0);
    NotIn(ts, p0, p);
    NoSkip(ts, p);
    if ts[p].kind in {IF, WHILE, FOR, DEF} {
      CompoundFate(ts, p);
    } else if OneLine(ts, p).Ok? {
      OneLineFlat(ts, p);
    }
  }

  lemma {:induction false} CompoundFate(ts: Toks, p: nat)
    requires Lexical(ts) && p < |ts| && ts[p].kind in {IF, WHILE, FOR, DEF} && SkipLines(ts, p) == p
    ensures Fate(ts, p, Compound(ts, p), StatementKept(ts, p))
    decreases |ts| - p, 2
  {
    hide Lexical, IfRest, WhileRest, ForRest, DefRest, SkipLines, OpenColon, IfKept, WhileKept, ForKept, DefKept;
    NotIn(ts, p, p + 1);
    match ts[p].kind
    case IF => IfFate(ts, p + 1);
    case WHILE => WhileFate(ts, p + 1);
    case FOR => ForFate(ts, p + 1);
    case DEF => DefFate(ts, p + 1);
  }

  /** A statement of one line has no colon. */
  lemma OneLineFlat(ts: Toks, p: nat)
    requires p < |ts| && ts[p].kind !in {EOF, DEDENT, IF, WHILE, FOR, DEF} && OneLine(ts, p).Ok?
    ensures !(p <= OpenColon(ts) < OneLine(ts, p).pos)
  {
    hide Level, OpenColon;
    var k, e := ts[p].kind, OneLine(ts, p).pos;
    var q := if k == RETURN then p + 1 else if k == NAME && ts[p + 1].kind == EQ then p + 2 else p;
    if k == PASS || k == IMPORT || (k == RETURN && ts[p + 1].kind in {NEWLINE, EOF, DEDENT}) {
    } else {
      LevelFlat(ts, q, OR_LEVEL);
    }
    NotIn(ts, p, e);
  }

  /** An expression, and what was parsed behind it. */
  lemma ExprFate<T>(ts: Toks, p: nat, r: Res<T>, kept: bool)
    requires p < |ts| && Parsed(ts, p).Ok? && Fate(ts, Parsed(ts, p).pos, r, kept)
    requires (r.Ok? ==> Parsed(ts, p).pos <= r.pos)
    ensures Fate(ts, p, r, kept)
  {
    hide Level, OpenColon;
    LevelFlat(ts, p, OR_LEVEL);
    NotIn(ts, p, Parsed(ts, p).pos);
  }

  lemma {:induction false} WhileFate(ts: Toks, p: nat)
    requires Lexical(ts) && p < |ts|
    ensures Fate(ts, p, WhileRest(ts, p), WhileKept(ts, p))
    decreases |ts| - p, 3
  {
    hide Lexical, Level, Suite, OpenColon, SuiteKept;
    var c := Parsed(ts, p);
    if c.Ok? {
      SuiteFate(ts, c.pos);
      ExprFate(ts, p, Suite(ts, c.pos), SuiteKept(ts, c.pos));
    }
  }

  lemma {:induction false} ForFate(ts: Toks, p: nat)
    requires Lexical(ts) && p < |ts|
    ensures Fate(ts, p, ForRest(ts, p), ForKept(ts, p))
    decreases |ts| - p, 3
  {
    hide Lexical, Level, Suite, OpenColon, SuiteKept;
    if ts[p].kind == NAME && ts[p + 1].kind == IN {
      var e := Parsed(ts, p + 2);
      if e.Ok? {
        SuiteFate(ts, e.pos);
        ExprFate(ts, p + 2, Suite(ts, e.pos), SuiteKept(ts, e.pos));
        NotIn(ts, p, p + 2);
      }
    }
  }

  lemma {:induction false} DefFate(ts: Toks, p: nat)
    requires Lexical(ts) && p < |ts|
    ensures Fate(ts, p, DefRest(ts, p), DefKept(ts, p))
    decreases |ts| - p, 3
  {
    hide Lexical, Suite, Params, OpenColon, SuiteKept;
    if ts[p].kind == NAME && ts[p + 1].kind == LPAREN {
      var ps := Params(ts, p + 2);
      if ps.Ok? && ts[ps.pos].kind == RPAREN {
        SuiteFate(ts, ps.pos + 1);
        ParamsNoColon(ts, p + 2);
        NotIn(ts, p, ps.pos + 1);
      }
    }
  }

  lemma ParamsNoColon(ts: Toks, p: nat)
    requires p < |ts| && Params(ts, p).Ok?
    ensures forall i :: p <= i < Params(ts, p).pos ==> ts[i].kind != COLON
  {
    hide MoreParams;
    if ts[p].kind != RPAREN {
      ParamsFlat(ts, [], p);
    }
  }

  lemma {:induction false} IfFate(ts: Toks, p: nat)
    requires Lexical(ts) && p < |ts|
    ensures Fate(ts, p, IfRest(ts, p), IfKept(ts, p))
    decreases |ts| - p, 3
  {
    hide Lexical, Level, Suite, ElseRest, OpenColon, SuiteKept, ElseKept;
    var c := Parsed(ts, p);
    if c.Ok? {
      var b := Suite(ts, c.pos);
      SuiteFate(ts, c.pos);
      if b.Ok? {
        ElseFate(ts, b.pos);
        Both(ts, c.pos, b, SuiteKept(ts, c.pos), ElseRest(ts, b.pos), ElseKept(ts, b.pos));
        ExprFate(ts, p, ElseRest(ts, b.pos), SuiteKept(ts, c.pos) && ElseKept(ts, b.pos));
      } else {
        ExprFate(ts, p, b, SuiteKept(ts, c.pos));
      }
    }
  }

  /** One part behind the other. */
  lemma Both<T, U>(ts: Toks, p: nat, a: Res<T>, ka: bool, b: Res<U>, kb: bool)
    requires a.Ok? && p <= a.pos && Fate(ts, p, a, ka) && Fate(ts, a.pos, b, kb) && (b.Ok? ==> a.pos <= b.pos)
    ensures Fate(ts, p, b, ka && kb)
  {
    hide OpenColon;
  }

  lemma {:induction false} ElseFate(ts: Toks, p: nat)
    requires Lexical(ts) && p < |ts|
    ensures Fate(ts, p, ElseRest(ts, p), ElseKept(ts, p))
    decreases |ts| - p, 3
  {
    hide Lexical, Level, Suite, SkipLines, IfRest, OpenColon, SuiteKept, IfKept;
    var q := SkipLines(ts, p);
    NotIn(ts, p, q);
    if ts[q].kind == ELIF {
      NotIn(ts, q, q + 1);
      IfFate(ts, q + 1);
    } else if ts[q].kind == ELSE {
      NotIn(ts, q, q + 1);
      SuiteFate(ts, q + 1);
    }
  }

  /** "expected dedent" cannot happen: at the end of the tokens no block is open. */
  lemma {:induction false} SuiteFate(ts: Toks, p: nat)
    requires Lexical(ts) && p < |ts|
    ensures Fate(ts, p, Suite(ts, p), SuiteKept(ts, p))
    decreases |ts| - p, 2
  {
    hide Lexical, Statement, Block, At, SkipLines, OpenColon, StatementKept, BlockKept;
    if ts[p].kind == COLON {
      ColonOpen(ts, p);
      if ts[p + 1].kind == NEWLINE {
        if ts[p + 2].kind == INDENT {
          InBlock(ts, p);
        }
      } else {
        NoSkip(ts, p + 1);
        if ts[p + 1].kind in {EOF, DEDENT} {
          NoStatement(ts, p + 1);
        } else {
          StatementFate(ts, p + 1);
        }
      }
    }
  }

  lemma NoSkip(ts: Toks, p: nat)
    requires p < |ts| && ts[p].kind != NEWLINE
    ensures SkipLines(ts, p) == p
  {
  }

  lemma NoStatement(ts: Toks, p: nat)
    requires p < |ts| && ts[p].kind in {EOF, DEDENT}
    ensures Statement(ts, p) == Err(Silent, p)
  {
  }

  lemma {:induction false} InBlock(ts: Toks, p: nat)
    requires Lexical(ts) && p + 3 < |ts| && ts[p].kind == COLON && ts[p + 1].kind == NEWLINE && ts[p + 2].kind == INDENT
    requires p != OpenColon(ts)
    ensures Fate(ts, p, Suite(ts, p), BlockKept(ts, p + 3))
    decreases |ts| - p, 1
  {
    hide Lexical, Statement, Block, At, SkipLines, OpenColon, StatementKept, BlockKept;
    var b := Block(ts, [], p + 3);
    BlockFate(ts, [], p + 3);
    NotIn(ts, p + 1, p + 3);
    if b.Ok? {
      BlocksBalanced(ts, [], p + 3);
      InNest(ts, b.pos);
      InNest(ts, p + 2);
      AtStep(ts, p + 2);
      NotIn(ts, b.pos, b.pos + 1);
    }
  }

  lemma {:induction false} BlockFate(ts: Toks, before: seq<Stmt>, p: nat)
    requires Lexical(ts) && p < |ts|
    ensures var r := Block(ts, before, p); Fate(ts, p, r, BlockKept(ts, p)) && (r.Err? ==> Plausible(r.e))
    decreases |ts| - p, 4
  {
    hide Lexical, Statement, SkipLines, OpenColon, StatementKept;
    var q := SkipLines(ts, p);
    NoSkip(ts, q);
    NotIn(ts, p, q);
    if ts[q].kind !in {DEDENT, EOF} {
      var s := Statement(ts, q);
      StatementFate(ts, q);
      if s.Ok? {
        BlockFate(ts, before + [s.v], s.pos);
      }
    }
  }

  lemma {:induction false} ModuleFate(ts: Toks, before: seq<Stmt>, p: nat)
    requires Lexical(ts) && p < |ts| && At(ts, p) == 0
    ensures var r := Module(ts, before, p);
      if r.Ok? then r.pos == |ts| - 1 && (ModuleKept(ts, p) <==> !(p <= OpenColon(ts) < |ts|)) else Plausible(r.e)
    decreases |ts| - p
  {
    hide Lexical, Statement, SkipLines, At, OpenColon, StatementKept;
    var q := SkipLines(ts, p);
    LinesBalanced(ts, p);
    NoSkip(ts, q);
    NotIn(ts, p, q);
    InNest(ts, q);
    if ts[q].kind == EOF {
      NotIn(ts, q, |ts|);
    } else {
      var s := Statement(ts, q);
      StatementFate(ts, q);
      if s.Ok? || s.e == Silent {
        StatementBalanced(ts, q);
      }
      if s.Ok? {
        ModuleFate(ts, before + [s.v], s.pos);
      } else if s.e == Silent {
        InNest(ts, s.pos);
      }
    }
  }

  /**
   * Every source that lexes is parsed to its end or rejected with a message, which is never that a dedent is missing.
   * A statement is dropped without a word if and only if the last token, DEDENTs and EOF aside, is a colon.
   */
  lemma SourceWhole(src: string)
    requires PyLexer.Tokens(src).Next?
    ensures var ts := PyLexer.Tokens(src).s.toks;
      && Lexical(ts)
      && var r := Module(ts, [], 0);
         if r.Ok? then r.pos == |ts| - 1 && (ModuleKept(ts, 0) <==> !EndsOpen(ts)) else Plausible(r.e)
  {
    PyLexer.TokensLexical(src);
    hide PyLexer.Tokens, ModuleKept;
    var ts := PyLexer.Tokens(src).s.toks;
    assert ts[..0] == [];
    ModuleFate(ts, [], 0);
  }

  /** A newline-terminated source never ends with a colon, so nothing of it is dropped without a word. */
  lemma SourceParses(src: string)
    requires PyLexer.Tokens(src).Next? && (src == [] || src[|src| - 1] == '\n')
    ensures var ts := PyLexer.Tokens(src).s.toks;
      && WellNested(ts)
      && var r := Module(ts, [], 0);
         if r.Ok? then r.pos == |ts| - 1 && ModuleKept(ts, 0) else Plausible(r.e)
  {
    PyLexer.TokensNested(src);
    hide PyLexer.Tokens, ModuleKept;
    NestedLexical(PyLexer.Tokens(src).s.toks);
    SourceWhole(src);
  }

  // ---- a source that loses its statement ----

  const LOST: string := "if x:"

  /** What the lexer makes of it. */
  lemma LostTokens()
    ensures PyLexer.Tokens(LOST).Next?
    ensures PyLexer.Tokens(LOST).s.toks == [Tok(IF, "if", 0), Tok(NAME, "x", 0), Plain(COLON), Plain(EOF)]
  {
    hide PyLexer.Lexed, PyLexer.Scanned, PyLexer.Indented;
    var a, b, c, d := PyLexer.LState(0, false, [0], []), Tok(IF, "if", 0), Tok(NAME, "x", 0), Plain(COLON);
    LostStart();
    LostWord(a, 0, 2, IF);
    LostBlank(PyLexer.LState(2, false, [0], [b]));
    LostWord(PyLexer.LState(3, false, [0], [b]), 3, 4, NAME);
    LostColon(PyLexer.LState(4, false, [0], [b, c]));
    LostEnd(PyLexer.LState(5, false, [0], [b, c, d]));
    assert LOST[0..2] == "if" && LOST[3..4] == "x";
    assert [] + [b] == [b] && [b] + [c] == [b, c] && [b, c] + [d] == [b, c, d];
  }

  lemma LostStart()
    ensures PyLexer.Tokens(LOST) == PyLexer.Lexed(LOST, PyLexer.LState(0, false, [0], []))
  {
    assert PyLexer.RunEnd(LOST, 0, c => c == ' ') == 0;
    assert PyLexer.Indented(LOST, PyLexer.Begin()) == PyLexer.Next(PyLexer.LState(0, false, [0], []));
  }

  lemma LostWord(s: PyLexer.LState, a: nat, e: nat, k: Kind)
    requires PyLexer.Sound(LOST, s) && !s.start && s.pos == a
    requires (a == 0 && e == 2 && k == IF) || (a == 3 && e == 4 && k == NAME)
    ensures PyLexer.Lexed(LOST, s) == PyLexer.Lexed(LOST, s.(pos := e, toks := s.toks + [Tok(k, LOST[a..e], 0)]))
  {
    assert LOST[0..2] == "if" && LOST[3..4] == "x";
    RunIs(LOST, a, e);
    assert PyLexer.Keyword(LOST[a..e]) == k;
    assert PyLexer.Scanned(LOST, s) == PyLexer.Next(s.(pos := e, toks := s.toks + [Tok(k, LOST[a..e], 0)]));
  }

  lemma {:induction false} RunIs(s: string, a: nat, e: nat)
    requires a <= e < |s| && (forall i :: a <= i < e ==> PyLexer.Alnum(s[i])) && !PyLexer.Alnum(s[e])
    ensures PyLexer.RunEnd(s, a, c => PyLexer.Alnum(c)) == e
    decreases e - a
  {
    if a < e {
      RunIs(s, a + 1, e);
    }
  }

  lemma LostBlank(s: PyLexer.LState)
    requires PyLexer.Sound(LOST, s) && !s.start && s.pos == 2
    ensures PyLexer.Lexed(LOST, s) == PyLexer.Lexed(LOST, s.(pos := 3))
  {}

  lemma LostColon(s: PyLexer.LState)
    requires PyLexer.Sound(LOST, s) && !s.start && s.pos == 4
    ensures PyLexer.Lexed(LOST, s) == PyLexer.Lexed(LOST, s.(pos := 5, toks := s.toks + [Plain(COLON)]))
  {
    assert PyLexer.OpAt(LOST, 4) == PyLexer.Op(COLON, 1);
  }

  lemma LostEnd(s: PyLexer.LState)
    requires PyLexer.Sound(LOST, s) && s.pos == 5 && s.stack == [0]
    ensures PyLexer.Lexed(LOST, s) == PyLexer.Next(s.(toks := s.toks + [Plain(EOF)]))
  {
    assert PyLexer.Owed(0) == [];
    assert s.stack[..1] == s.stack && s.toks + [] + [Plain(EOF)] == s.toks + [Plain(EOF)];
  }

  /**
   * Without the newline a statement can be lost: this source parses as the empty module, and its statement is dropped.
   */
  lemma LostWithoutNewline()
    ensures PyLexer.Tokens(LOST).Next?
    ensures var ts := PyLexer.Tokens(LOST).s.toks; Lexical(ts) && Module(ts, [], 0) == Ok([], 3) && !ModuleKept(ts, 0)
  {
    LostTokens();
    PyLexer.TokensLexical(LOST);
    hide PyLexer.Tokens;
    var ts: Toks := PyLexer.Tokens(LOST).s.toks;
    LostIf(ts);
    hide Level, Compound, OneLine, Suite, Module;
    NoSkip(ts, 0);
    assert Statement(ts, 0) == Err(Silent, 3);
    LostModule(ts);
  }

  lemma LostModule(ts: Toks)
    requires |ts| > 0 && ts[0].kind == IF && Statement(ts, 0) == Err(Silent, 3)
    ensures Module(ts, [], 0) == Ok([], 3) && !ModuleKept(ts, 0)
  {
    hide Statement;
    NoSkip(ts, 0);
  }

  lemma LostIf(ts: Toks)
    requires ts == [Tok(IF, "if", 0), Tok(NAME, "x", 0), Plain(COLON), Plain(EOF)]
    ensures Compound(ts, 0) == Err(Silent, 3)
  {
    hide Level;
    ParsedShown(Name("x"), [Tok(IF, "if", 0)], [Plain(COLON), Plain(EOF)]);
    assert [Tok(IF, "if", 0)] + Shown(Name("x"), OR_LEVEL) + [Plain(COLON), Plain(EOF)] == ts;
    assert Suite(ts, 2) == Err(Silent, 3);
  }
}
