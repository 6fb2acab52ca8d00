/** What parsing accepts, for statements and modules: the tokens of a tree follow the rules of the grammar. */
module PyForms {
  import opened Wrappers
  import opened PyTokens
  import opened PyGrammar
  import opened PySpelt
  import opened PyWhole

  // ---- the rules for statements ----

  ghost predicate Lines(w: seq<Tok>) { forall i :: 0 <= i < |w| ==> w[i].kind == NEWLINE }

  /** At most one newline. */
  predicate LineEnds(w: seq<Tok>) { w == [] || (|w| == 1 && w[0].kind == NEWLINE) }

  predicate Named(t: Tok, n: string) { t.kind == NAME && t.text == n }

  /** An expression up to `i` and the end of its line. */
  ghost predicate EndsAt(e: Expr, w: seq<Tok>, i: nat) {
    i <= |w| && Spells(e, OR_LEVEL, w[..i]) && LineEnds(w[i..])
  }

  ghost predicate Line(e: Expr, w: seq<Tok>) { exists i :: EndsAt(e, w, i) }

  /** Names with a comma between each and the next. */
  ghost predicate ParamsSpelt(ps: seq<string>, w: seq<Tok>) {
    if ps == [] then w == []
    else if |ps| == 1 then |w| == 1 && Named(w[0], ps[0])
    else |w| >= 2 && Named(w[0], ps[0]) && w[1].kind == COMMA && ParamsSpelt(ps[1..], w[2..])
  }

  /**
   * A statement behind blank lines. If `whole` does not hold, a block may end in a statement without its suite, which
   * is no part of the tree.
   */
  ghost predicate Forms(s: Stmt, w: seq<Tok>, whole: bool)
    decreases |w|, 0, 5
  {
    exists k :: FormsFrom(s, w, whole, k)
  }

  ghost predicate FormsFrom(s: Stmt, w: seq<Tok>, whole: bool, k: nat)
    decreases |w|, 0, 4
  {
    k <= |w| && Lines(w[..k]) && FormsHere(s, w[k..], whole)
  }

  ghost predicate FormsHere(s: Stmt, w: seq<Tok>, whole: bool)
    decreases |w|, 0, 3
  {
    |w| > 0 &&
    match s
    case Pass => w[0].kind == PASS && LineEnds(w[1..])
    case Return(v) => w[0].kind == RETURN && if v.None? then LineEnds(w[1..]) else Line(v.value, w[1..])
    case Import(n) => |w| >= 2 && w[0].kind == IMPORT && Named(w[1], n) && LineEnds(w[2..])
    case Assign(n, e) => |w| >= 2 && Named(w[0], n) && w[1].kind == EQ && Line(e, w[2..])
    case ExprStmt(e) => Line(e, w)
    case While(c, b) => w[0].kind == WHILE && Headed(c, b, w[1..], whole)
    case For(t, o, b) =>
      |w| >= 3 && w[0].kind == FOR && Named(w[1], t) && w[2].kind == IN && Headed(o, b, w[3..], whole)
    case Def(n, ps, b) =>
      |w| >= 3 && w[0].kind == DEF && Named(w[1], n) && w[2].kind == LPAREN
      && ParamsSuite(ps, b, w[3..], whole)
    case If(_, _, _) => w[0].kind == IF && FormsIf(s, w[1..], whole)
  }

  ghost predicate ParamsSuite(ps: seq<string>, b: seq<Stmt>, w: seq<Tok>, whole: bool)
    decreases |w|, 0, 2
  {
    exists i :: ParamsThen(ps, b, w, whole, i)
  }

  ghost predicate ParamsThen(ps: seq<string>, b: seq<Stmt>, w: seq<Tok>, whole: bool, i: nat)
    decreases |w|, 0, 1
  {
    i < |w| && ParamsSpelt(ps, w[..i]) && w[i].kind == RPAREN && FormsSuite(b, w[i + 1..], whole)
  }

  /** An expression and a suite. */
  ghost predicate Headed(e: Expr, b: seq<Stmt>, w: seq<Tok>, whole: bool)
    decreases |w|, 0, 2
  {
    exists i :: HeadedAt(e, b, w, whole, i)
  }

  ghost predicate HeadedAt(e: Expr, b: seq<Stmt>, w: seq<Tok>, whole: bool, i: nat)
    decreases |w|, 0, 1
  {
    i <= |w| && Spells(e, OR_LEVEL, w[..i]) && FormsSuite(b, w[i..], whole)
  }

  /** What follows `if` or `elif`. */
  ghost predicate FormsIf(s: Stmt, w: seq<Tok>, whole: bool)
    decreases |w|, 0, 6
  {
    s.If? && exists i :: IfAt(s.cond, s.thenPart, s.elsePart, w, whole, i)
  }

  ghost predicate IfAt(c: Expr, b: seq<Stmt>, e: Else, w: seq<Tok>, whole: bool, i: nat)
    decreases |w|, 0, 5
  {
    i <= |w| && Headed(c, b, w[..i], whole) && FormsElse(e, w[i..], whole)
  }

  ghost predicate FormsElse(e: Else, w: seq<Tok>, whole: bool)
    decreases |w|, 0, 4
  {
    match e
    case NoElse => Lines(w)
    case Elif(s) => exists k :: ElifAt(s, w, whole, k)
    case ElseBlock(b) => exists k :: ElseAt(b, w, whole, k)
  }

  ghost predicate ElifAt(s: Stmt, w: seq<Tok>, whole: bool, k: nat)
    decreases |w|, 0, 3
  {
    k < |w| && Lines(w[..k]) && w[k].kind == ELIF && FormsIf(s, w[k + 1..], whole)
  }

  ghost predicate ElseAt(b: seq<Stmt>, w: seq<Tok>, whole: bool, k: nat)
    decreases |w|, 0, 3
  {
    k < |w| && Lines(w[..k]) && w[k].kind == ELSE && FormsSuite(b, w[k + 1..], whole)
  }

  /** A colon and an indented block or a statement in the same line. */
  ghost predicate FormsSuite(b: seq<Stmt>, w: seq<Tok>, whole: bool)
    decreases |w|, 0, 0
  {
    && |w| > 1 && w[0].kind == COLON
    && (|| (&& |w| >= 4 && w[1].kind == NEWLINE && w[2].kind == INDENT && w[|w| - 1].kind == DEDENT
            && FormsBlock(b, w[3..|w| - 1], whole))
        || (w[1].kind != NEWLINE && |b| == 1 && Forms(b[0], w[1..], whole)))
  }

  /** Statements, and blank lines behind them or what is left out. */
  ghost predicate FormsBlock(b: seq<Stmt>, w: seq<Tok>, whole: bool)
    decreases |w|, |b|, 1
  {
    if b == [] then Lines(w) || (!whole && LeftOut(w)) else exists i :: FirstForms(b, w, whole, i)
  }

  ghost predicate FirstForms(b: seq<Stmt>, w: seq<Tok>, whole: bool, i: nat)
    requires b != []
    decreases |w|, |b|, 0
  {
    i <= |w| && Forms(b[0], w[..i], whole) && FormsBlock(b[1..], w[i..], whole)
  }

  /** What is left out ends with the colon of a suite that is not there. */
  predicate LeftOut(w: seq<Tok>) { w != [] && w[|w| - 1].kind == COLON }

  // ---- parsing keeps to them ----

  lemma {:induction false} LinesSkipped(ts: Toks, p: nat)
    requires p < |ts|
    ensures Lines(ts[p..SkipLines(ts, p)])
  {
  }

  lemma OneEnd(ts: Toks, p: nat)
    requires p < |ts|
    ensures LineEnds(ts[p..LineEnd(ts, p)])
  {
  }

  /** An expression and the end of the line, behind `a` tokens of a statement. */
  lemma {:induction false} LineSpelt(ts: Toks, p: nat)
    requires p < |ts| && Parsed(ts, p).Ok?
    ensures var r := Parsed(ts, p); Line(r.v, ts[p..LineEnd(ts, r.pos)])
  {
    hide Spells, Level, LineEnd;
    var r := Parsed(ts, p);
    LevelSpelt(ts, p, OR_LEVEL);
    OneEnd(ts, r.pos);
    var q := LineEnd(ts, r.pos);
    Slices(ts, p, r.pos, q);
    assert EndsAt(r.v, ts[p..q], r.pos - p);
  }

  /** Where a statement begins, and behind what. */
  lemma {:induction false} StatementForms(ts: Toks, p0: nat, whole: bool)
    requires p0 < |ts| && Lexical(ts) && (whole ==> !EndsOpen(ts)) && Statement(ts, p0).Ok?
    ensures var r := Statement(ts, p0); Forms(r.v, ts[p0..r.pos], whole)
    decreases |ts| - p0, 3
  {
    hide Lexical, EndsOpen, Lines, FormsHere, Compound, OneLine, SkipLines;
    var p := SkipLines(ts, p0);
    var r := Statement(ts, p0);
    LinesSkipped(ts, p0);
    if ts[p].kind in {IF, WHILE, FOR, DEF} {
      CompoundForms(ts, p, whole);
    } else {
      OneLineForms(ts, p, whole);
    }
    Slices(ts, p0, p, r.pos);
    assert FormsFrom(r.v, ts[p0..r.pos], whole, p - p0);
  }

  lemma {:induction false} CompoundForms(ts: Toks, p: nat, whole: bool)
    requires p < |ts| && ts[p].kind in {IF, WHILE, FOR, DEF} && Compound(ts, p).Ok?
    requires Lexical(ts) && (whole ==> !EndsOpen(ts))
    ensures var r := Compound(ts, p); FormsHere(r.v, ts[p..r.pos], whole)
    decreases |ts| - p, 2
  {
    hide Lexical, EndsOpen, Headed, FormsIf, FormsSuite, IfRest, WhileRest, ForRest, DefRest, ParamsSuite;
    var r := Compound(ts, p);
    var w := ts[p..r.pos];
    assert w[1..] == ts[p + 1..r.pos];
    match ts[p].kind
    case IF => IfForms(ts, p + 1, whole);
    case WHILE => WhileForms(ts, p + 1, whole);
    case FOR =>
      ForForms(ts, p + 1, whole);
      assert w[3..] == ts[p + 3..r.pos];
    case DEF =>
      DefForms(ts, p + 1, whole);
      assert w[3..] == ts[p + 3..r.pos];
  }

  lemma {:induction false} OneLineForms(ts: Toks, p: nat, whole: bool)
    requires p < |ts| && ts[p].kind !in {EOF, IF, WHILE, FOR, DEF} && OneLine(ts, p).Ok?
    ensures var r := OneLine(ts, p); FormsHere(r.v, ts[p..r.pos], whole)
  {
    hide Line, Level, LineEnd, LineEnds, Headed, FormsIf, FormsSuite, ParamsSuite;
    var r := OneLine(ts, p);
    var w := ts[p..r.pos];
    var k := ts[p].kind;
    if k == PASS {
      OneEnd(ts, p + 1);
      assert w[1..] == ts[p + 1..r.pos];
    } else if k == IMPORT {
      OneEnd(ts, p + 2);
      assert w[2..] == ts[p + 2..r.pos];
    } else if k == RETURN {
      assert w[1..] == ts[p + 1..r.pos];
      if ts[p + 1].kind in {NEWLINE, EOF, DEDENT} {
        OneEnd(ts, p + 1);
      } else {
        LineSpelt(ts, p + 1);
      }
    } else if k == NAME && ts[p + 1].kind == EQ {
      LineSpelt(ts, p + 2);
      assert w[2..] == ts[p + 2..r.pos];
    } else {
      LineSpelt(ts, p);
    }
  }

  lemma {:induction false} WhileForms(ts: Toks, p: nat, whole: bool)
    requires p < |ts| && WhileRest(ts, p).Ok? && Lexical(ts) && (whole ==> !EndsOpen(ts))
    ensures var r := WhileRest(ts, p); r.v.While? && Headed(r.v.cond, r.v.body, ts[p..r.pos], whole)
    decreases |ts| - p, 3
  {
    hide Lexical, EndsOpen, Level, Suite, Headed;
    HeadForms(ts, p, whole);
  }

  /** An expression and its suite. */
  lemma {:induction false} HeadForms(ts: Toks, p: nat, whole: bool)
    requires p < |ts| && Parsed(ts, p).Ok? && Suite(ts, Parsed(ts, p).pos).Ok?
    requires Lexical(ts) && (whole ==> !EndsOpen(ts))
    ensures var c := Parsed(ts, p);
      var b := Suite(ts, c.pos);
      Headed(c.v, b.v, ts[p..b.pos], whole)
    decreases |ts| - p, 2
  {
    hide Lexical, EndsOpen, Level, Suite, Spells, FormsSuite;
    var c := Parsed(ts, p);
    LevelSpelt(ts, p, OR_LEVEL);
    SuiteForms(ts, c.pos, whole);
    var b := Suite(ts, c.pos);
    Slices(ts, p, c.pos, b.pos);
    assert HeadedAt(c.v, b.v, ts[p..b.pos], whole, c.pos - p);
  }

  lemma {:induction false} ForForms(ts: Toks, p: nat, whole: bool)
    requires p < |ts| && ForRest(ts, p).Ok? && Lexical(ts) && (whole ==> !EndsOpen(ts))
    ensures var r := ForRest(ts, p);
      && r.v.For? && p + 2 <= r.pos && Named(ts[p], r.v.target) && ts[p + 1].kind == IN
      && Headed(r.v.over, r.v.body, ts[p + 2..r.pos], whole)
    decreases |ts| - p, 3
  {
    hide Lexical, EndsOpen, Level, Suite, Headed;
    HeadForms(ts, p + 2, whole);
  }

  lemma {:induction false} DefForms(ts: Toks, p: nat, whole: bool)
    requires p < |ts| && DefRest(ts, p).Ok? && Lexical(ts) && (whole ==> !EndsOpen(ts))
    ensures var r := DefRest(ts, p);
      && r.v.Def? && p + 2 <= r.pos && Named(ts[p], r.v.name) && ts[p + 1].kind == LPAREN
      && ParamsSuite(r.v.params, r.v.body, ts[p + 2..r.pos], whole)
    decreases |ts| - p, 3
  {
    hide Lexical, EndsOpen, Suite, Params, ParamsSpelt, FormsSuite;
    var ps := Params(ts, p + 2);
    ParamsForm(ts, p + 2);
    SuiteForms(ts, ps.pos + 1, whole);
    var r := DefRest(ts, p);
    var w := ts[p + 2..r.pos];
    Slices(ts, p + 2, ps.pos, r.pos);
    assert w[ps.pos - (p + 2) + 1..] == ts[ps.pos + 1..r.pos];
    assert ParamsThen(ps.v, r.v.body, w, whole, ps.pos - (p + 2));
  }

  lemma {:induction false} ParamsForm(ts: Toks, p: nat)
    requires p < |ts| && Params(ts, p).Ok?
    ensures var r := Params(ts, p); ParamsSpelt(r.v, ts[p..r.pos])
  {
    hide MoreParams, ParamsSpelt;
    if ts[p].kind != RPAREN {
      MoreForm(ts, [], p);
      assert MoreParams(ts, [], p).v[0..] == MoreParams(ts, [], p).v;
    } else {
      NoParams();
      assert ts[p..p] == [];
    }
  }

  lemma NoParams()
    ensures ParamsSpelt([], [])
  {
  }

  lemma {:induction false} MoreForm(ts: Toks, before: seq<string>, p: nat)
    requires p < |ts| && MoreParams(ts, before, p).Ok?
    ensures var r := MoreParams(ts, before, p);
      |before| < |r.v| && before == r.v[..|before|] && ParamsSpelt(r.v[|before|..], ts[p..r.pos])
    decreases |ts| - p
  {
    hide ParamsSpelt;
    var r, n := MoreParams(ts, before, p), |before|;
    if ts[p + 1].kind != COMMA {
      OneParam(r.v[n], ts[p]);
      assert r.v[n..] == [r.v[n]] && ts[p..p + 1] == [ts[p]];
    } else {
      MoreForm(ts, before + [ts[p].text], p + 2);
      TakesOn(r.v, before, ts[p].text);
      var w := ts[p..r.pos];
      assert w[2..] == ts[p + 2..r.pos] && r.v[n..][1..] == r.v[n + 1..];
      ParamThen(r.v[n..], w);
    }
  }

  lemma OneParam(n: string, t: Tok)
    requires Named(t, n)
    ensures ParamsSpelt([n], [t])
  {
  }

  lemma {:induction false} ParamThen(ps: seq<string>, w: seq<Tok>)
    requires |ps| >= 2 && |w| >= 2 && Named(w[0], ps[0]) && w[1].kind == COMMA && ParamsSpelt(ps[1..], w[2..])
    ensures ParamsSpelt(ps, w)
  {
  }

  lemma {:induction false} IfForms(ts: Toks, p: nat, whole: bool)
    requires p < |ts| && IfRest(ts, p).Ok? && Lexical(ts) && (whole ==> !EndsOpen(ts))
    ensures var r := IfRest(ts, p); r.v.If? && FormsIf(r.v, ts[p..r.pos], whole)
    decreases |ts| - p, 3
  {
    hide Lexical, EndsOpen, Level, Suite, ElseRest, Headed, FormsElse;
    var c := Parsed(ts, p);
    var b := Suite(ts, c.pos);
    HeadForms(ts, p, whole);
    ElseForms(ts, b.pos, whole);
    var r := IfRest(ts, p);
    Slices(ts, p, b.pos, r.pos);
    assert IfAt(c.v, b.v, r.v.elsePart, ts[p..r.pos], whole, b.pos - p);
  }

  lemma {:induction false} ElseForms(ts: Toks, p: nat, whole: bool)
    requires p < |ts| && ElseRest(ts, p).Ok? && Lexical(ts) && (whole ==> !EndsOpen(ts))
    ensures var r := ElseRest(ts, p); FormsElse(r.v, ts[p..r.pos], whole)
    decreases |ts| - p, 3
  {
    hide Lexical, EndsOpen, Suite, SkipLines, Lines, IfRest, FormsIf, FormsSuite;
    var q := SkipLines(ts, p);
    LinesSkipped(ts, p);
    var r := ElseRest(ts, p);
    var w, k := ts[p..r.pos], q - p;
    Slices(ts, p, q, r.pos);
    if ts[q].kind == ELIF {
      IfForms(ts, q + 1, whole);
      assert w[k + 1..] == ts[q + 1..r.pos];
      assert ElifAt(r.v.s, w, whole, k);
    } else if ts[q].kind == ELSE {
      SuiteForms(ts, q + 1, whole);
      assert w[k + 1..] == ts[q + 1..r.pos];
      assert ElseAt(r.v.b, w, whole, k);
    }
  }

  lemma {:induction false} SuiteForms(ts: Toks, p: nat, whole: bool)
    requires p < |ts| && Suite(ts, p).Ok? && Lexical(ts) && (whole ==> !EndsOpen(ts))
    ensures var r := Suite(ts, p); FormsSuite(r.v, ts[p..r.pos], whole)
    decreases |ts| - p, 2
  {
    hide Lexical, EndsOpen, Block, Statement, FormsBlock, Forms;
    var r := Suite(ts, p);
    var w := ts[p..r.pos];
    if ts[p + 1].kind == NEWLINE {
      BlockForms(ts, [], p + 3, whole);
      var b := Block(ts, [], p + 3);
      Inner(ts, p, 3, b.pos);
      assert b.v[0..] == b.v;
    } else {
      StatementForms(ts, p + 1, whole);
      assert w[1..] == ts[p + 1..r.pos];
    }
  }

  /** A statement that is left out ends with the colon behind which its suite is missing. */
  lemma {:induction false} SilentOpen(ts: Toks, p: nat)
    requires p < |ts| && Lexical(ts) && ts[p].kind !in {EOF, DEDENT, NEWLINE}
    requires Statement(ts, p).Err? && Statement(ts, p).e == Silent
    ensures var q := Statement(ts, p).pos; p < q && EndsOpen(ts) && LeftOut(ts[p..q])
  {
    hide Lexical, EndsOpen, Statement;
    NoSkip(ts, p);
    StatementFate(ts, p);
    ColonThere(ts);
    var q := Statement(ts, p).pos;
    var w := ts[p..q];
    assert w[|w| - 1] == ts[q - 1];
  }

  /** The statements behind those read before. */
  lemma {:induction false} BlockForms(ts: Toks, before: seq<Stmt>, p: nat, whole: bool)
    requires p < |ts| && Block(ts, before, p).Ok? && Lexical(ts) && (whole ==> !EndsOpen(ts))
    ensures var r := Block(ts, before, p);
      |before| <= |r.v| && before == r.v[..|before|] && FormsBlock(r.v[|before|..], ts[p..r.pos], whole)
    decreases |ts| - p, 4
  {
    hide Lexical, EndsOpen, Statement, SkipLines, Forms, FormsBlock, Lines;
    var q := SkipLines(ts, p);
    var r, n := Block(ts, before, p), |before|;
    LinesSkipped(ts, p);
    if ts[q].kind in {DEDENT, EOF} {
      BlockEnds(ts[p..q], whole);
      assert r.v[n..] == [];
    } else {
      var s := Statement(ts, q);
      if s.Ok? {
        StatementForms(ts, q, whole);
        BlockForms(ts, before + [s.v], s.pos, whole);
        TakesOn(r.v, before, s.v);
        FirstOfBlock(ts, p, q, s.v, s.pos, r.v[n + 1..], r.pos, whole);
      } else {
        SilentOpen(ts, q);
        BlockCut(ts, p, q, s.pos, whole);
        assert r.v[n..] == [];
      }
    }
  }

  lemma BlockEnds(w: seq<Tok>, whole: bool)
    requires Lines(w)
    ensures FormsBlock([], w, whole)
  {
  }

  lemma BlockCut(ts: Toks, p: nat, q: nat, r: nat, whole: bool)
    requires p <= q < r < |ts| && LeftOut(ts[q..r]) && !whole
    ensures FormsBlock([], ts[p..r], whole)
  {
    assert ts[p..r][r - p - 1] == ts[q..r][r - q - 1];
  }

  lemma {:induction false} FirstOfBlock(ts: Toks, p: nat, q: nat, s: Stmt, m: nat, rest: seq<Stmt>, r: nat, whole: bool)
    requires p <= q <= m <= r < |ts| && Lines(ts[p..q])
    requires Forms(s, ts[q..m], whole) && FormsBlock(rest, ts[m..r], whole)
    ensures FormsBlock([s] + rest, ts[p..r], whole)
  {
    hide FormsHere, Lines;
    Slices(ts, p, m, r);
    MoreLines(ts, p, q, s, m, whole);
    assert ([s] + rest)[1..] == rest;
    hide Forms;
    assert FirstForms([s] + rest, ts[p..r], whole, m - p);
  }

  /** Blank lines before a statement belong to it. */
  lemma {:induction false} MoreLines(ts: Toks, p: nat, q: nat, s: Stmt, m: nat, whole: bool)
    requires p <= q <= m < |ts| && Lines(ts[p..q]) && Forms(s, ts[q..m], whole)
    ensures Forms(s, ts[p..m], whole)
  {
    hide FormsHere;
    var v, w := ts[q..m], ts[p..m];
    var k: nat :| FormsFrom(s, v, whole, k);
    var i := q - p + k;
    assert w[i..] == v[k..];
    assert w[..i] == ts[p..q] + v[..k];
    assert FormsFrom(s, w, whole, i);
  }

  lemma {:induction false} ModuleForms(ts: Toks, before: seq<Stmt>, p: nat, whole: bool)
    requires p < |ts| && Module(ts, before, p).Ok? && Lexical(ts) && (whole ==> !EndsOpen(ts))
    ensures var r := Module(ts, before, p);
      |before| <= |r.v| && before == r.v[..|before|] && FormsBlock(r.v[|before|..], ts[p..r.pos], whole)
    decreases |ts| - p
  {
    hide Lexical, EndsOpen, Statement, SkipLines, Forms, FormsBlock, Lines;
    var q := SkipLines(ts, p);
    var r, n := Module(ts, before, p), |before|;
    LinesSkipped(ts, p);
    if ts[q].kind == EOF {
      BlockEnds(ts[p..q], whole);
      assert r.v[n..] == [];
    } else {
      var s := Statement(ts, q);
      if s.Ok? {
        StatementForms(ts, q, whole);
        ModuleForms(ts, before + [s.v], s.pos, whole);
        TakesOn(r.v, before, s.v);
        FirstOfBlock(ts, p, q, s.v, s.pos, r.v[n + 1..], r.pos, whole);
      } else if ts[q].kind == DEDENT {
        NoSkip(ts, q);
        NoStatement(ts, q);
        BlockEnds(ts[p..q], whole);
        assert r.v[n..] == [];
      } else {
        SilentOpen(ts, q);
        BlockCut(ts, p, q, s.pos, whole);
        assert r.v[n..] == [];
      }
    }
  }

  /**
   * Whatever source is accepted, its tokens are a module by the rules of the grammar, and the tree is that module's;
   * with a suite missing at the very end the statement it is missing from, and only that, is left out.
   */
  lemma SourceForms(src: string)
    requires PyLexer.Tokens(src).Next?
    ensures var ts := PyLexer.Tokens(src).s.toks;
      && Lexical(ts)
      && var r := Module(ts, [], 0);
         r.Ok? ==> FormsBlock(r.v, ts[..|ts| - 1], !EndsOpen(ts))
  {
    hide PyLexer.Tokens, FormsBlock, Module, EndsOpen;
    SourceWhole(src);
    var ts := PyLexer.Tokens(src).s.toks;
    var r := Module(ts, [], 0);
    if r.Ok? {
      ModuleForms(ts, [], 0, !EndsOpen(ts));
      assert r.v[0..] == r.v && ts[0..r.pos] == ts[..|ts| - 1];
    }
  }
}
