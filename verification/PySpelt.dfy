/** What parsing accepts: the tokens that a tree was parsed from are a spelling of it by the rules of the grammar. */
module PySpelt {
  import opened Wrappers
  import opened PyTokens
  import opened PyGrammar
  import opened PyPrint
  import opened PyPrecedence

  // ---- the rules for expressions ----

  predicate Wrapped(w: seq<Tok>, open: Kind, close: Kind) {
    |w| >= 2 && w[0].kind == open && w[|w| - 1].kind == close
  }

  /** An expression of a level or a tighter one, in any number of parentheses. */
  ghost predicate Spells(e: Expr, level: nat, w: seq<Tok>)
    decreases |w|, 4
  {
    (level <= LevelOf(e) && Bare(e, w)) || (Wrapped(w, LPAREN, RPAREN) && Spells(e, OR_LEVEL, w[1..|w| - 1]))
  }

  /** An expression without parentheses around it. */
  ghost predicate Bare(e: Expr, w: seq<Tok>)
    decreases |w|, 3
  {
    match e
    case Int(v) => |w| == 1 && w[0].kind == NUMBER && w[0].number == v
    case Str(s) => |w| == 1 && w[0].kind == STRING && Unescaped(w[0].text) == s
    case Bool(b) => |w| == 1 && w[0].kind == if b then TRUE else FALSE
    case NoneLit => |w| == 1 && w[0].kind == NONE
    case Name(id) => |w| == 1 && w[0].kind == NAME && w[0].text == id
    case List(items) => Wrapped(w, LBRACK, RBRACK) && SpellsAll(items, w[1..|w| - 1])
    case Call(f, args) =>
      |w| >= 3 && w[0].kind == NAME && w[0].text == f && Wrapped(w[1..], LPAREN, RPAREN)
      && SpellsAll(args, w[2..|w| - 1])
    case Index(a, i) =>
      |w| > 0 && w[|w| - 1].kind == RBRACK && Both(a, PRIMARY_LEVEL, LBRACK, i, OR_LEVEL, w[..|w| - 1])
    case Unary(op, x) => |w| > 0 && w[0].kind == op && op in {NOT, PLUS, MINUS} && Spells(x, UNARY_LEVEL, w[1..])
    case Binop(op, l, r) => Rank(op) > 0 && Rank(op) != 3 && Both(l, Rank(op) - 1, op, r, Rank(op), w)
    case Compare(op, l, r) => Rank(op) == 3 && Both(l, ARITH_LEVEL, op, r, ARITH_LEVEL, w)
  }

  /** Two expressions of given levels with a token between them. */
  ghost predicate Both(l: Expr, n: nat, op: Kind, r: Expr, m: nat, w: seq<Tok>)
    decreases |w|, 2
  {
    exists k :: Apart(l, n, op, r, m, w, k)
  }

  ghost predicate Apart(l: Expr, n: nat, op: Kind, r: Expr, m: nat, w: seq<Tok>, k: nat)
    decreases |w|, 1
  {
    k < |w| && w[k].kind == op && Spells(l, n, w[..k]) && Spells(r, m, w[k + 1..])
  }

  /** Expressions with a comma between each and the next. */
  ghost predicate SpellsAll(es: seq<Expr>, w: seq<Tok>)
    decreases |w|, 5
  {
    if es == [] then w == []
    else if |es| == 1 then Spells(es[0], OR_LEVEL, w)
    else exists k :: FirstOf(es, w, k)
  }

  ghost predicate FirstOf(es: seq<Expr>, w: seq<Tok>, k: nat)
    decreases |w|, 1
  {
    es != [] && k < |w| && w[k].kind == COMMA && Spells(es[0], OR_LEVEL, w[..k]) && SpellsAll(es[1..], w[k + 1..])
  }

  // ---- parsing keeps to them ----

  lemma Slices(ts: seq<Tok>, s: nat, p: nat, q: nat)
    requires s <= p <= q <= |ts|
    ensures ts[s..q][..p - s] == ts[s..p] && ts[s..q][p - s..] == ts[p..q] && (p < q ==> ts[s..q][p - s] == ts[p])
  {
  }

  lemma Inner(ts: seq<Tok>, p: nat, a: nat, q: nat)
    requires p + a <= q < |ts|
    ensures ts[p..q + 1][a..q - p] == ts[p + a..q]
  {
    var w, u, v := ts[p..q + 1], ts[p..q + 1][a..q - p], ts[p + a..q];
    forall i | 0 <= i < |u| ensures u[i] == v[i] {
      assert u[i] == w[a + i];
    }
  }

  /** One more element behind those read before. */
  lemma TakesOn<T>(v: seq<T>, before: seq<T>, x: T)
    requires |before| < |v| && before + [x] == v[..|before| + 1]
    ensures before == v[..|before|] && v[|before|..] == [x] + v[|before| + 1..]
  {
    var n := |before|;
    assert v[..n] == v[..n + 1][..n] && v[n] == v[..n + 1][n];
  }

  lemma {:induction false} Looser(e: Expr, level: nat, level': nat, w: seq<Tok>)
    requires Spells(e, level, w) && level' <= level
    ensures Spells(e, level', w)
  {
    hide Bare, LevelOf;
  }

  lemma {:induction false} Bares(e: Expr, level: nat, w: seq<Tok>)
    requires Bare(e, w) && level <= LevelOf(e)
    ensures Spells(e, level, w)
  {
    hide Bare, LevelOf;
  }

  /** An expression of a level is parsed from a spelling of it. */
  lemma {:induction false} LevelSpelt(ts: Toks, p: nat, level: nat)
    requires level <= PRIMARY_LEVEL && p < |ts| && Level(ts, p, level).Ok?
    ensures var r := Level(ts, p, level); Spells(r.v, level, ts[p..r.pos])
    decreases |ts| - p, 2, PRIMARY_LEVEL - level
  {
    hide Spells, Atom, Indexed, Joined, Prefix;
    if level == PRIMARY_LEVEL {
      AtomSpelt(ts, p);
      var a := Atom(ts, p);
      IndexedSpelt(ts, p, a.v, a.pos);
    } else if level == UNARY_LEVEL {
      if Prefix(ts[p].kind) {
        LevelSpelt(ts, p + 1, UNARY_LEVEL);
        var a := Level(ts, p + 1, UNARY_LEVEL);
        UnarySpelt(ts, p, a.v, a.pos);
      } else {
        LevelSpelt(ts, p, PRIMARY_LEVEL);
        var a := Level(ts, p, PRIMARY_LEVEL);
        Looser(a.v, PRIMARY_LEVEL, level, ts[p..a.pos]);
      }
    } else {
      LevelSpelt(ts, p, level + 1);
      var a := Level(ts, p, level + 1);
      if level != COMPARE_LEVEL {
        Looser(a.v, level + 1, level, ts[p..a.pos]);
      }
      JoinedSpelt(ts, p, a.v, a.pos, level);
    }
  }

  lemma {:induction false} UnarySpelt(ts: Toks, p: nat, x: Expr, q: nat)
    requires p + 1 <= q < |ts| && Prefix(ts[p].kind) && Spells(x, UNARY_LEVEL, ts[p + 1..q])
    ensures Spells(Unary(ts[p].kind, x), UNARY_LEVEL, ts[p..q])
  {
    hide Spells;
    var w := ts[p..q];
    assert w[1..] == ts[p + 1..q];
    Bares(Unary(ts[p].kind, x), UNARY_LEVEL, w);
  }

  /** What operands behind a first one make of it. */
  lemma {:induction false} JoinedSpelt(ts: Toks, s: nat, left: Expr, p: nat, level: nat)
    requires level < UNARY_LEVEL && s <= p < |ts| && Joined(ts, left, p, level).Ok?
    requires Spells(left, if level == COMPARE_LEVEL then ARITH_LEVEL else level, ts[s..p])
    ensures var r := Joined(ts, left, p, level); Spells(r.v, level, ts[s..r.pos])
    decreases |ts| - p, 0, 0
  {
    hide Spells, Level, JoinsAt;
    if !JoinsAt(ts[p].kind, level) {
      Looser(left, if level == COMPARE_LEVEL then ARITH_LEVEL else level, level, ts[s..p]);
    } else {
      LevelSpelt(ts, p + 1, level + 1);
      var b := Level(ts, p + 1, level + 1);
      OneJoined(ts, s, left, p, level, b.v, b.pos);
      if level != COMPARE_LEVEL {
        JoinedSpelt(ts, s, Binop(ts[p].kind, left, b.v), b.pos, level);
      }
    }
  }

  lemma {:induction false} OneJoined(ts: Toks, s: nat, left: Expr, p: nat, level: nat, right: Expr, q: nat)
    requires level < UNARY_LEVEL && s <= p < q < |ts| && JoinsAt(ts[p].kind, level)
    requires Spells(left, if level == COMPARE_LEVEL then ARITH_LEVEL else level, ts[s..p])
    requires Spells(right, level + 1, ts[p + 1..q])
    ensures var op := ts[p].kind;
      Spells(if level == COMPARE_LEVEL then Compare(op, left, right) else Binop(op, left, right), level, ts[s..q])
  {
    hide Spells;
    var w, op, k := ts[s..q], ts[p].kind, p - s;
    Slices(ts, s, p, q);
    assert w[k + 1..] == ts[p + 1..q];
    if level == COMPARE_LEVEL {
      assert Apart(left, ARITH_LEVEL, op, right, ARITH_LEVEL, w, k);
      Bares(Compare(op, left, right), level, w);
    } else {
      assert Rank(op) == level + 1;
      assert Apart(left, Rank(op) - 1, op, right, Rank(op), w, k);
      Bares(Binop(op, left, right), level, w);
    }
  }

  lemma {:induction false} IndexedSpelt(ts: Toks, s: nat, a: Expr, p: nat)
    requires s <= p < |ts| && Indexed(ts, a, p).Ok? && Spells(a, PRIMARY_LEVEL, ts[s..p])
    ensures var r := Indexed(ts, a, p); Spells(r.v, PRIMARY_LEVEL, ts[s..r.pos])
    decreases |ts| - p, 0, 0
  {
    hide Spells, Level;
    if ts[p].kind == LBRACK {
      LevelSpelt(ts, p + 1, OR_LEVEL);
      var i := Level(ts, p + 1, OR_LEVEL);
      OneIndexed(ts, s, a, p, i.v, i.pos);
      IndexedSpelt(ts, s, Index(a, i.v), i.pos + 1);
    }
  }

  lemma {:induction false} OneIndexed(ts: Toks, s: nat, a: Expr, p: nat, i: Expr, q: nat)
    requires s <= p < q < |ts| && ts[p].kind == LBRACK && ts[q].kind == RBRACK
    requires Spells(a, PRIMARY_LEVEL, ts[s..p]) && Spells(i, OR_LEVEL, ts[p + 1..q])
    ensures Spells(Index(a, i), PRIMARY_LEVEL, ts[s..q + 1])
  {
    hide Spells;
    var w, k := ts[s..q + 1], p - s;
    var v := w[..|w| - 1];
    assert v == ts[s..q];
    Slices(ts, s, p, q);
    assert v[k + 1..] == ts[p + 1..q];
    assert Apart(a, PRIMARY_LEVEL, LBRACK, i, OR_LEVEL, v, k);
    Bares(Index(a, i), PRIMARY_LEVEL, w);
  }

  lemma {:induction false} AtomSpelt(ts: Toks, p: nat)
    requires p < |ts| && Atom(ts, p).Ok?
    ensures var r := Atom(ts, p); Spells(r.v, PRIMARY_LEVEL, ts[p..r.pos])
    decreases |ts| - p, 1, 0
  {
    hide Spells, Level, Listed, Bracketed, Called, Parenthesised;
    var k := ts[p].kind;
    var r := Atom(ts, p);
    if Literal(ts[p]).Some? {
      LiteralSpelt(ts[p]);
      assert ts[p..p + 1] == [ts[p]];
    } else if k == LBRACK {
      BracketedSpelt(ts, p);
    } else if k == NAME {
      if ts[p + 1].kind != LPAREN {
        assert ts[p..p + 1] == [ts[p]];
        Bares(r.v, PRIMARY_LEVEL, [ts[p]]);
      } else {
        CalledSpelt(ts, p);
      }
    } else {
      ParenthesisedSpelt(ts, p);
    }
  }

  lemma LiteralSpelt(t: Tok)
    requires Literal(t).Some?
    ensures Spells(Literal(t).value, PRIMARY_LEVEL, [t])
  {
    hide Spells;
    Bares(Literal(t).value, PRIMARY_LEVEL, [t]);
  }

  lemma {:induction false} BracketedSpelt(ts: Toks, p: nat)
    requires p < |ts| && ts[p].kind == LBRACK && Bracketed(ts, p).Ok?
    ensures var r := Bracketed(ts, p); Spells(r.v, PRIMARY_LEVEL, ts[p..r.pos])
    decreases |ts| - p, 0, 0
  {
    hide Spells, SpellsAll, Level, Listed;
    ListedSpelt(ts, p + 1, RBRACK);
    var l := Listed(ts, p + 1, RBRACK);
    var w := ts[p..l.pos + 1];
    Inner(ts, p, 1, l.pos);
    Bares(List(l.v), PRIMARY_LEVEL, w);
  }

  lemma {:induction false} CalledSpelt(ts: Toks, p: nat)
    requires p < |ts| && ts[p].kind == NAME && ts[p + 1].kind == LPAREN && Called(ts, p).Ok?
    ensures var r := Called(ts, p); Spells(r.v, PRIMARY_LEVEL, ts[p..r.pos])
    decreases |ts| - p, 0, 0
  {
    hide Spells, SpellsAll, Level, Listed;
    ListedSpelt(ts, p + 2, RPAREN);
    var l := Listed(ts, p + 2, RPAREN);
    var w := ts[p..l.pos + 1];
    Inner(ts, p, 2, l.pos);
    Bares(Call(ts[p].text, l.v), PRIMARY_LEVEL, w);
  }

  lemma {:induction false} ParenthesisedSpelt(ts: Toks, p: nat)
    requires p < |ts| && ts[p].kind == LPAREN && Parenthesised(ts, p).Ok?
    ensures var r := Parenthesised(ts, p); Spells(r.v, PRIMARY_LEVEL, ts[p..r.pos])
    decreases |ts| - p, 0, 0
  {
    hide Bare, Level;
    LevelSpelt(ts, p + 1, OR_LEVEL);
    var e := Level(ts, p + 1, OR_LEVEL);
    var w := ts[p..e.pos + 1];
    Inner(ts, p, 1, e.pos);
  }

  lemma {:induction false} ListedSpelt(ts: Toks, p: nat, close: Kind)
    requires p < |ts| && Listed(ts, p, close).Ok?
    ensures var r := Listed(ts, p, close); SpellsAll(r.v, ts[p..r.pos])
    decreases |ts| - p, 4, 0
  {
    hide Spells, SpellsAll, Items;
    if ts[p].kind == close {
      NoneSpelt(ts[p..p]);
    } else {
      ItemsSpelt(ts, [], p);
      assert [] + Items(ts, [], p).v == Items(ts, [], p).v;
    }
  }

  lemma NoneSpelt(w: seq<Tok>)
    ensures SpellsAll([], w) <==> w == []
  {
  }

  /** The items behind those read before. */
  lemma {:induction false} ItemsSpelt(ts: Toks, before: seq<Expr>, p: nat)
    requires p < |ts| && Items(ts, before, p).Ok?
    ensures var r := Items(ts, before, p);
      |before| < |r.v| && before == r.v[..|before|] && SpellsAll(r.v[|before|..], ts[p..r.pos])
    decreases |ts| - p, 3, 0
  {
    hide Spells, SpellsAll, Level;
    LevelSpelt(ts, p, OR_LEVEL);
    var e, r, n := Level(ts, p, OR_LEVEL), Items(ts, before, p), |before|;
    if ts[e.pos].kind != COMMA {
      assert r.v[n..] == [e.v];
      OneSpelt(e.v, ts[p..e.pos]);
    } else {
      ItemsSpelt(ts, before + [e.v], e.pos + 1);
      TakesOn(r.v, before, e.v);
      MoreSpelt(ts, p, e.v, e.pos, r.v[n + 1..], r.pos);
    }
  }

  lemma {:induction false} OneSpelt(e: Expr, w: seq<Tok>)
    requires Spells(e, OR_LEVEL, w)
    ensures SpellsAll([e], w)
  {
    hide Spells;
  }

  lemma {:induction false} MoreSpelt(ts: Toks, p: nat, e: Expr, q: nat, es: seq<Expr>, r: nat)
    requires p <= q < r < |ts| && ts[q].kind == COMMA && es != []
    requires Spells(e, OR_LEVEL, ts[p..q]) && SpellsAll(es, ts[q + 1..r])
    ensures SpellsAll([e] + es, ts[p..r])
  {
    hide Spells;
    var w, k := ts[p..r], q - p;
    Slices(ts, p, q, r);
    assert w[k + 1..] == ts[q + 1..r] && ([e] + es)[1..] == es;
    assert FirstOf([e] + es, w, k);
  }
}
