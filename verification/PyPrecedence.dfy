/** How operators bind: of two operators with an operand between them, which one takes it. */
module PyPrecedence {
  import opened PyTokens
  import opened PyGrammar
  import opened PyPrint

  /** How tightly an operator between two operands binds; 0 is no such operator. */
  function Rank(op: Kind): nat {
    if op == OR then 1
    else if op == AND then 2
    else if op in {EQEQ, NE, LT, GT, LE, GE} then 3
    else if op in {PLUS, MINUS} then 4
    else if op in {STAR, SLASH, PERCENT} then 5
    else 0
  }

  /** Comparisons are trees of their own kind. */
  function Join(op: Kind, l: Expr, r: Expr): Expr { if Rank(op) == 3 then Compare(op, l, r) else Binop(op, l, r) }

  /** Something that needs no parentheses anywhere. */
  ghost predicate Operand(e: Expr) { Good(e) && LevelOf(e) == PRIMARY_LEVEL }

  lemma RankJoins(op: Kind)
    requires Rank(op) > 0
    ensures JoinsAt(op, Rank(op) - 1) && (op == OR <==> Rank(op) == 1) && (op == AND <==> Rank(op) == 2)
    ensures JoinsAt(op, ARITH_LEVEL) <==> Rank(op) == 4
  {
  }

  lemma {:induction false} JoinLevel(op: Kind, l: Expr, r: Expr)
    requires Rank(op) > 0 && Good(l) && Good(r)
    ensures Good(Join(op, l, r)) && LevelOf(Join(op, l, r)) == Rank(op) - 1
    ensures var n := Join(op, l, r);
      if Rank(op) == 3 then n.Compare? && n.op == op && n.l == l && n.r == r
      else n.Binop? && n.op == op && n.l == l && n.r == r
  {
    hide JoinsAt, Rank;
    RankJoins(op);
  }

  lemma {:induction false} Bare(n: Expr, level: nat)
    requires LevelOf(n) >= level
    ensures Shown(n, level) == Body(n)
  {
  }

  lemma {:induction false} CompareParts(n: Expr)
    requires n.Compare?
    ensures Body(n) == Shown(n.l, ARITH_LEVEL) + [Sym(n.op)] + Shown(n.r, ARITH_LEVEL)
  {
    hide Shown;
  }

  function Between(l: seq<Tok>, op: Kind, r: seq<Tok>): seq<Tok> { l + [Sym(op)] + r }

  lemma TwoBetween(x: seq<Tok>, o: Kind, y: seq<Tok>, q: Kind, z: seq<Tok>)
    ensures Between(Between(x, o, y), q, z) == Between(x, o, Between(y, q, z)) == x + [Sym(o)] + y + [Sym(q)] + z
  {
    hide Sym;
  }

  /** Operands that bind as tightly as their places want. */
  ghost predicate Fitting(n: Expr) {
    || (n.Compare? && LevelOf(n.l) >= 3 && LevelOf(n.r) >= 3)
    || (n.Binop? && Good(n) && LevelOf(n.l) >= LevelOf(n) && LevelOf(n.r) > LevelOf(n))
  }

  lemma {:induction false} JoinFits(op: Kind, l: Expr, r: Expr)
    requires Rank(op) > 0 && Good(l) && Good(r) && LevelOf(l) >= Rank(op) - 1 && LevelOf(r) >= Rank(op)
    requires Rank(op) == 3 ==> LevelOf(l) >= 3
    ensures Fitting(Join(op, l, r))
  {
    hide Body, Good, LevelOf, Join, Rank;
    JoinLevel(op, l, r);
  }

  /** They are written as they are. */
  lemma {:induction false} BareParts(n: Expr, l: Expr, op: Kind, r: Expr)
    requires Fitting(n) && n in {Compare(op, l, r), Binop(op, l, r)}
    ensures Body(n) == Between(Body(l), op, Body(r))
  {
    hide JoinsAt, Rank, Good, LevelOf, Body, Shown, Sym;
    if n.Compare? {
      CompareParts(n);
      Bare(n.l, ARITH_LEVEL);
      Bare(n.r, ARITH_LEVEL);
    } else {
      BinopParts(n);
      Bare(n.l, LevelOf(n));
      Bare(n.r, LevelOf(n) + 1);
    }
  }

  lemma {:induction false} JoinBody(op: Kind, l: Expr, r: Expr)
    requires Rank(op) > 0 && Good(l) && Good(r) && LevelOf(l) >= Rank(op) - 1 && LevelOf(r) >= Rank(op)
    requires Rank(op) == 3 ==> LevelOf(l) >= 3
    ensures Body(Join(op, l, r)) == Between(Body(l), op, Body(r))
  {
    hide Good, LevelOf, Body, Between, Fitting, Rank;
    JoinFits(op, l, r);
    BareParts(Join(op, l, r), l, op, r);
  }

  /**
   * The tighter one of two operators takes the operand between them, and of two that bind alike the first; a second
   * comparison is not taken along.
   */
  lemma {:induction false} TwoOperators(a: Expr, o: Kind, b: Expr, q: Kind, c: Expr, ts: Toks, p: nat)
    requires Operand(a) && Operand(b) && Operand(c) && Rank(o) > 0 && Rank(q) > 0
    requires StandsAt(ts, p, Body(a) + [Sym(o)] + Body(b) + [Sym(q)] + Body(c))
    requires Stops(ts[p + |Body(a)| + |Body(b)| + |Body(c)| + 2].kind, OR_LEVEL)
    ensures var m, e := p + |Body(a)| + |Body(b)| + 1, p + |Body(a)| + |Body(b)| + |Body(c)| + 2;
      Parsed(ts, p) == if Rank(o) == 3 && Rank(q) == 3 then Ok(Join(o, a, b), m)
                       else Ok(if Rank(o) >= Rank(q) then Join(q, Join(o, a, b), c) else Join(o, a, Join(q, b, c)), e)
  {
    hide Body, Shown, Good, Stops, StandsAt, Level, LevelOf, Join, JoinsAt, Rank, Sym;
    var w := Body(a) + [Sym(o)] + Body(b);
    TwoBetween(Body(a), o, Body(b), q, Body(c));
    RankMax(o);
    if Rank(o) == 3 && Rank(q) == 3 {
      JoinLevel(o, a, b);
      JoinBody(o, a, b);
      StandsThree(ts, p, w, Sym(q), Body(c));
      assert Sym(q).kind == q by { SymKind(q); }
      OneComparison(Join(o, a, b), ts, p, q);
    } else if Rank(o) >= Rank(q) {
      LeftTree(a, o, b, q, c);
      Whole(Join(q, Join(o, a, b), c), ts, p);
    } else {
      RightTree(a, o, b, q, c);
      Whole(Join(o, a, Join(q, b, c)), ts, p);
    }
  }

  lemma SymKind(k: Kind)
    ensures Sym(k).kind == k
  {
  }

  lemma {:induction false} LeftTree(a: Expr, o: Kind, b: Expr, q: Kind, c: Expr)
    requires Operand(a) && Operand(b) && Operand(c) && Rank(o) >= Rank(q) > 0 && !(Rank(o) == 3 && Rank(q) == 3)
    ensures var n := Join(q, Join(o, a, b), c);
      Good(n) && Body(n) == Between(Between(Body(a), o, Body(b)), q, Body(c))
  {
    hide Body, Good, LevelOf, Join, Rank, Between;
    RankMax(o);
    RankMax(q);
    JoinLevel(o, a, b);
    JoinBody(o, a, b);
    JoinLevel(q, Join(o, a, b), c);
    JoinBody(q, Join(o, a, b), c);
  }

  lemma {:induction false} RightTree(a: Expr, o: Kind, b: Expr, q: Kind, c: Expr)
    requires Operand(a) && Operand(b) && Operand(c) && 0 < Rank(o) < Rank(q)
    ensures var n := Join(o, a, Join(q, b, c));
      Good(n) && Body(n) == Between(Body(a), o, Between(Body(b), q, Body(c)))
  {
    hide Body, Good, LevelOf, Join, Rank, Between;
    RankMax(q);
    JoinLevel(q, b, c);
    JoinBody(q, b, c);
    JoinLevel(o, a, Join(q, b, c));
    JoinBody(o, a, Join(q, b, c));
  }

  lemma RankMax(op: Kind)
    ensures Rank(op) <= 5
  {
  }

  lemma {:induction false} Whole(n: Expr, ts: Toks, p: nat)
    requires Good(n) && StandsAt(ts, p, Body(n)) && Stops(ts[p + |Body(n)|].kind, OR_LEVEL)
    ensures Parsed(ts, p) == Ok(n, p + |Body(n)|)
  {
    hide Body, Good, Stops, StandsAt, Level, LevelOf;
    AtLevel(n, OR_LEVEL, ts, p);
  }

  lemma {:induction false} OneComparison(n: Expr, ts: Toks, p: nat, q: Kind)
    requires n.Compare? && Good(n) && StandsAt(ts, p, Body(n)) && ts[p + |Body(n)|].kind == q && Rank(q) == 3
    ensures Parsed(ts, p) == Ok(n, p + |Body(n)|)
  {
    hide Body, Good, StandsAt;
    hide Level, Rank;
    RankJoins(q);
    OpStops(q, COMPARE_LEVEL);
    NaturalCompare(n, ts, p);
    var e := p + |Body(n)|;
    NothingJoins(ts, n, p, e, AND_LEVEL);
    NothingJoins(ts, n, p, e, OR_LEVEL);
  }

  lemma {:induction false} NothingJoins(ts: Toks, n: Expr, p: nat, e: nat, level: nat)
    requires level < UNARY_LEVEL && p < |ts| && e < |ts| && Level(ts, p, level + 1) == Ok(n, e)
    requires !JoinsAt(ts[e].kind, level)
    ensures Level(ts, p, level) == Ok(n, e)
  {
    hide Indexed, Atom;
  }

  /** A sign or a `not` binds tighter than any operator between operands, on either side. */
  lemma {:induction false} PrefixBinds(u: Kind, a: Expr, o: Kind, b: Expr, ts: Toks, p: nat)
    requires Operand(a) && Operand(b) && Rank(o) > 0 && u in {NOT, PLUS, MINUS}
    requires p + |Body(a)| + |Body(b)| + 2 < |ts| && Stops(ts[p + |Body(a)| + |Body(b)| + 2].kind, OR_LEVEL)
    ensures var e := p + |Body(a)| + |Body(b)| + 2;
      && (StandsAt(ts, p, [Sym(u)] + Body(a) + [Sym(o)] + Body(b)) ==> Parsed(ts, p) == Ok(Join(o, Unary(u, a), b), e))
      && (StandsAt(ts, p, Body(a) + [Sym(o)] + [Sym(u)] + Body(b)) ==> Parsed(ts, p) == Ok(Join(o, a, Unary(u, b)), e))
  {
    hide Body, Good, Stops, StandsAt, Level, LevelOf, Join, Rank, Between;
    UnaryLevel(u, a);
    UnaryLevel(u, b);
    OneTree(Unary(u, a), o, b);
    OneTree(a, o, Unary(u, b));
    PrefixText(u, Body(a), o, Body(b));
    if StandsAt(ts, p, [Sym(u)] + Body(a) + [Sym(o)] + Body(b)) {
      Whole(Join(o, Unary(u, a), b), ts, p);
    }
    if StandsAt(ts, p, Body(a) + [Sym(o)] + [Sym(u)] + Body(b)) {
      Whole(Join(o, a, Unary(u, b)), ts, p);
    }
  }

  lemma {:induction false} OneTree(a: Expr, o: Kind, b: Expr)
    requires Good(a) && Good(b) && LevelOf(a) >= UNARY_LEVEL && LevelOf(b) >= UNARY_LEVEL && Rank(o) > 0
    ensures Good(Join(o, a, b)) && Body(Join(o, a, b)) == Between(Body(a), o, Body(b))
  {
    hide Body, Good, LevelOf, Join, Rank, Between;
    RankMax(o);
    JoinLevel(o, a, b);
    JoinBody(o, a, b);
  }

  lemma PrefixText(u: Kind, x: seq<Tok>, o: Kind, y: seq<Tok>)
    ensures [Sym(u)] + x + [Sym(o)] + y == Between([Sym(u)] + x, o, y)
    ensures x + [Sym(o)] + [Sym(u)] + y == Between(x, o, [Sym(u)] + y)
  {
    hide Sym;
  }

  lemma {:induction false} UnaryLevel(u: Kind, a: Expr)
    requires Operand(a) && u in {NOT, PLUS, MINUS}
    ensures Good(Unary(u, a)) && LevelOf(Unary(u, a)) == UNARY_LEVEL && Body(Unary(u, a)) == [Sym(u)] + Body(a)
  {
  }
}
