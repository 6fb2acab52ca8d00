/** A printer that parenthesises by the grammar's levels, and that parsing undoes it. */
module PyPrint {
  import opened PyTokens
  import opened PyGrammar

  // ---- printing ----

  function LevelOf(n: Expr): (l: nat)
    ensures l <= PRIMARY_LEVEL
  {
    match n
    case Binop(op, _, _) => if op == OR then OR_LEVEL else if op == AND then AND_LEVEL else if JoinsAt(op, ARITH_LEVEL)
      then ARITH_LEVEL else TERM_LEVEL
    case Compare(_, _, _) => COMPARE_LEVEL
    case Unary(_, _) => UNARY_LEVEL
    case _ => PRIMARY_LEVEL
  }

  /** Trees the parser can build: every operator is one of its node's. */
  ghost predicate Good(n: Expr) {
    match n
    case Binop(op, l, r) => JoinsAt(op, LevelOf(n)) && LevelOf(n) != COMPARE_LEVEL && Good(l) && Good(r)
    case Compare(op, l, r) => JoinsAt(op, COMPARE_LEVEL) && Good(l) && Good(r)
    case Unary(op, e) => Prefix(op) && Good(e)
    case Index(a, i) => Good(a) && Good(i)
    case List(items) => forall i :: 0 <= i < |items| ==> Good(items[i])
    case Call(_, args) => forall i :: 0 <= i < |args| ==> Good(args[i])
    case _ => true
  }

  /** Backslashes, quotes and newlines written so that the lexer takes them along. */
  function Escaped(s: string): string {
    if s == [] then []
    else (if s[0] == '\\' then "\\\\" else if s[0] == '\n' then "\\n" else if s[0] == '"' then "\\\""
          else [s[0]]) + Escaped(s[1..])
  }

  function DigitOf(k: nat): (c: char)
    requires k < 10
    ensures '0' <= c <= '9' && c as int == '0' as int + k
  {
    ('0' as int + k) as char
  }

  /** Decimal digits; nothing for a negative number. */
  function Digits(v: int): (s: string)
    ensures forall i :: 0 <= i < |s| ==> '0' <= s[i] <= '9'
    ensures v >= 0 ==> |s| > 0
  {
    if v < 0 then [] else (if v < 10 then [] else Digits(v / 10)) + [DigitOf(v % 10)]
  }

  /** An expression where one of `level` or tighter is wanted. */
  function Shown(n: Expr, level: nat): (w: seq<Tok>)
    ensures |w| > 0
    decreases n, 1
  {
    if LevelOf(n) < level then [Plain(LPAREN)] + Body(n) + [Plain(RPAREN)] else Body(n)
  }

  function Body(n: Expr): (w: seq<Tok>)
    ensures |w| > 0
    decreases n, 0
  {
    match n
    case Int(v) => [Tok(NUMBER, Digits(v), v)]
    case Str(s) => [Tok(STRING, Escaped(s), 0)]
    case Bool(b) => [Sym(if b then TRUE else FALSE)]
    case NoneLit => [Sym(NONE)]
    case Name(id) => [Tok(NAME, id, 0)]
    case List(items) => [Plain(LBRACK)] + ShownItems(items) + [Plain(RBRACK)]
    case Call(f, args) => [Tok(NAME, f, 0), Plain(LPAREN)] + ShownItems(args) + [Plain(RPAREN)]
    case Index(a, i) => Shown(a, PRIMARY_LEVEL) + [Plain(LBRACK)] + Shown(i, OR_LEVEL) + [Plain(RBRACK)]
    case Unary(op, e) => [Sym(op)] + Shown(e, UNARY_LEVEL)
    case Binop(op, l, r) => Shown(l, LevelOf(n)) + [Sym(op)] + Shown(r, LevelOf(n) + 1)
    case Compare(op, l, r) => Shown(l, ARITH_LEVEL) + [Sym(op)] + Shown(r, ARITH_LEVEL)
  }

  function ShownItems(items: seq<Expr>): (w: seq<Tok>)
    ensures |items| > 0 ==> |w| > 0
    decreases items, 2
  {
    if |items| == 0 then []
    else if |items| == 1 then Shown(items[0], OR_LEVEL)
    else Shown(items[0], OR_LEVEL) + [Plain(COMMA)] + ShownItems(items[1..])
  }

  lemma {:induction false} UnescapedEscaped(s: string)
    ensures Unescaped(Escaped(s)) == s
  {
    if s != [] {
      UnescapedEscaped(s[1..]);
      var t := Escaped(s[1..]);
      if s[0] == '\\' || s[0] == '\n' || s[0] == '"' {
        assert Escaped(s)[2..] == t;
      } else {
        assert Escaped(s)[1..] == t;
      }
    }
  }

  /** A character that an escape stands for, as that escape; any other as itself. */
  function EscapeOf(c: char): (w: string)
    ensures 1 <= |w| <= 2 && (|w| == 1 ==> w[0] != '\\') && (|w| == 2 ==> w[0] == '\\')
    ensures Unescaped(w) == [c]
  {
    if c == '\n' then "\\n" else if c == '\t' then "\\t" else if c == '\r' then "\\r"
    else if c == '\\' || c == '"' || c == '\'' then ['\\', c] else [c]
  }

  function EscapedAll(s: string): string { if s == [] then [] else EscapeOf(s[0]) + EscapedAll(s[1..]) }

  /** Every escape is undone, those that printing does not need included. */
  lemma {:induction false} EscapesUndone(s: string)
    ensures Unescaped(EscapedAll(s)) == s
    decreases |s|
  {
    if s != [] {
      EscapesUndone(s[1..]);
      var t := EscapedAll(s[1..]);
      EscapeRead(EscapeOf(s[0]), t);
      assert s == [s[0]] + s[1..];
    }
  }

  /** One escape or one plain character is read. */
  lemma EscapeRead(w: string, t: string)
    requires |w| == 1 ==> w[0] != '\\'
    requires |w| == 2 ==> w[0] == '\\'
    ensures |w| == 1 ==> Unescaped(w + t) == w + Unescaped(t)
    ensures |w| == 2 ==> Unescaped(w + t) == Unescaped(w) + Unescaped(t) && |Unescaped(w)| == 1
  {
    if |w| == 1 {
      assert (w + t)[1..] == t;
    } else if |w| == 2 {
      assert (w + t)[2..] == t && w[2..] == [];
    }
  }

  // ---- parsing what was printed ----

  /** The tokens `w` stand at `p`, not at the end. */
  predicate StandsAt(ts: Toks, p: nat, w: seq<Tok>) { p + |w| < |ts| && ts[p..p + |w|] == w }

  lemma StandsSplit(ts: Toks, p: nat, a: seq<Tok>, b: seq<Tok>)
    requires StandsAt(ts, p, a + b)
    ensures StandsAt(ts, p, a) && StandsAt(ts, p + |a|, b)
  {
    var w := ts[p..p + |a + b|];
    assert w[..|a|] == a && w[|a|..] == b;
  }

  lemma StandsTok(ts: Toks, p: nat, t: Tok)
    requires StandsAt(ts, p, [t])
    ensures p < |ts| && ts[p] == t
  {
    assert ts[p] == ts[p..p + 1][0];
  }

  lemma StandsThree(ts: Toks, p: nat, a: seq<Tok>, t: Tok, b: seq<Tok>)
    requires StandsAt(ts, p, a + [t] + b)
    ensures StandsAt(ts, p, a) && ts[p + |a|] == t && StandsAt(ts, p + |a| + 1, b) && p + |a| + 1 + |b| < |ts|
  {
    StandsSplit(ts, p, a + [t], b);
    StandsSplit(ts, p, a, [t]);
    StandsTok(ts, p + |a|, t);
  }

  /** A token that does not carry an expression of this level, or a tighter one, on. */
  predicate Stops(k: Kind, level: nat) {
    k != LPAREN && k != LBRACK && forall l :: level <= l <= TERM_LEVEL ==> !JoinsAt(k, l)
  }

  /** An operator of a level ends operands of the next. */
  lemma OpStops(k: Kind, level: nat)
    requires JoinsAt(k, level)
    ensures Stops(k, level + 1)
  {
  }

  predicate Starts(k: Kind) { k in {NUMBER, STRING, TRUE, FALSE, NONE, NAME, LBRACK, LPAREN, NOT, MINUS, PLUS} }

  /** What an expression begins with; a primary does not begin with a prefix operator. */
  lemma {:induction false} BodyFirst(n: Expr)
    requires Good(n)
    ensures Starts(Body(n)[0].kind)
    ensures LevelOf(n) == PRIMARY_LEVEL ==> !Prefix(Body(n)[0].kind)
    decreases n, 0
  {
    match n
    case Index(a, _) => ShownFirst(a, PRIMARY_LEVEL);
    case Binop(_, l, _) => ShownFirst(l, LevelOf(n));
    case Compare(_, l, _) => ShownFirst(l, ARITH_LEVEL);
    case _ =>
  }

  lemma {:induction false} ShownFirst(n: Expr, level: nat)
    requires Good(n)
    ensures Starts(Shown(n, level)[0].kind) && (level == PRIMARY_LEVEL ==> !Prefix(Shown(n, level)[0].kind))
    decreases n, 1
  {
    BodyFirst(n);
  }

  /** The body of a node is parsed at the node's own level; a joined one may still go on. */
  lemma {:induction false} Natural(n: Expr, ts: Toks, p: nat)
    requires Good(n) && StandsAt(ts, p, Body(n))
    ensures var e, l := p + |Body(n)|, LevelOf(n);
      && (l == PRIMARY_LEVEL && ts[e].kind != LPAREN ==> Level(ts, p, l) == Indexed(ts, n, e))
      && (l == UNARY_LEVEL && Stops(ts[e].kind, l) ==> Level(ts, p, l) == Ok(n, e))
      && (l == COMPARE_LEVEL && Stops(ts[e].kind, l + 1) ==> Level(ts, p, l) == Ok(n, e))
      && (l < UNARY_LEVEL && l != COMPARE_LEVEL && Stops(ts[e].kind, l + 1) ==> Level(ts, p, l) == Joined(ts, n, e, l))
    decreases n, 1
  {
    hide Level, Joined, Indexed, Body, Shown, Stops, Good;
    match n
    case Binop(_, _, _) => NaturalBinop(n, ts, p);
    case Compare(_, _, _) => NaturalCompare(n, ts, p);
    case Unary(_, _) => NaturalUnary(n, ts, p);
    case Index(_, _) => NaturalIndex(n, ts, p);
    case List(_) => NaturalList(n, ts, p);
    case Call(_, _) => NaturalCall(n, ts, p);
    case _ => NaturalToken(n, ts, p);
  }

  lemma NaturalToken(n: Expr, ts: Toks, p: nat)
    requires n.Int? || n.Str? || n.Bool? || n.NoneLit? || n.Name?
    requires StandsAt(ts, p, Body(n))
    ensures |Body(n)| == 1 && (ts[p + 1].kind != LPAREN ==> Level(ts, p, PRIMARY_LEVEL) == Indexed(ts, n, p + 1))
  {
    hide Indexed, Joined, Listed;
    StandsTok(ts, p, Body(n)[0]);
    if n.Str? {
      UnescapedEscaped(n.s);
    }
  }

  lemma {:induction false} NaturalBinop(n: Expr, ts: Toks, p: nat)
    requires n.Binop? && Good(n) && StandsAt(ts, p, Body(n))
    ensures var e, l := p + |Body(n)|, LevelOf(n); Stops(ts[e].kind, l + 1) ==> Level(ts, p, l) == Joined(ts, n, e, l)
    decreases n, 0
  {
    hide Level, Joined, Indexed, Shown, Stops, StandsAt, JoinsAt, Good, Body, LevelOf;
    BinopParts(n);
    var l, a, b := LevelOf(n), Shown(n.l, LevelOf(n)), Shown(n.r, LevelOf(n) + 1);
    StandsThree(ts, p, a, Sym(n.op), b);
    OpStops(n.op, l);
    if Stops(ts[p + |Body(n)|].kind, l + 1) {
      LoopAt(n.l, l, ts, p);
      AtLevel(n.r, l + 1, ts, p + |a| + 1);
      JoinOne(ts, n.l, p + |a|, l, n.r, p + |Body(n)|);
    }
  }

  lemma BinopParts(n: Expr)
    requires n.Binop? && Good(n)
    ensures var l := LevelOf(n);
      && JoinsAt(n.op, l) && l < UNARY_LEVEL && l != COMPARE_LEVEL && Good(n.l) && Good(n.r)
      && Body(n) == Shown(n.l, l) + [Sym(n.op)] + Shown(n.r, l + 1)
  {
  }

  lemma JoinOne(ts: Toks, left: Expr, p: nat, level: nat, right: Expr, q: nat)
    requires level < UNARY_LEVEL && level != COMPARE_LEVEL && p + 1 < |ts| && q < |ts| && JoinsAt(ts[p].kind, level)
    requires Level(ts, p + 1, level + 1) == Ok(right, q)
    ensures Joined(ts, left, p, level) == Joined(ts, Binop(ts[p].kind, left, right), q, level)
  {
  }

  lemma {:induction false} NaturalCompare(n: Expr, ts: Toks, p: nat)
    requires n.Compare? && Good(n) && StandsAt(ts, p, Body(n))
    ensures var e := p + |Body(n)|; Stops(ts[e].kind, ARITH_LEVEL) ==> Level(ts, p, COMPARE_LEVEL) == Ok(n, e)
    decreases n, 0
  {
    hide Level, Joined, Indexed, Shown, Stops, StandsAt, JoinsAt;
    var a, b := Shown(n.l, ARITH_LEVEL), Shown(n.r, ARITH_LEVEL);
    StandsThree(ts, p, a, Sym(n.op), b);
    OpStops(n.op, COMPARE_LEVEL);
    if Stops(ts[p + |Body(n)|].kind, ARITH_LEVEL) {
      AtLevel(n.l, ARITH_LEVEL, ts, p);
      AtLevel(n.r, ARITH_LEVEL, ts, p + |a| + 1);
      CompareOne(ts, n.l, p, p + |a|, n.r, p + |Body(n)|);
    }
  }

  lemma CompareOne(ts: Toks, left: Expr, p: nat, m: nat, right: Expr, q: nat)
    requires p < |ts| && m + 1 < |ts| && q < |ts| && JoinsAt(ts[m].kind, COMPARE_LEVEL)
    requires Level(ts, p, ARITH_LEVEL) == Ok(left, m) && Level(ts, m + 1, ARITH_LEVEL) == Ok(right, q)
    ensures Level(ts, p, COMPARE_LEVEL) == Ok(Compare(ts[m].kind, left, right), q)
  {
    hide Indexed;
  }

  lemma {:induction false} NaturalUnary(n: Expr, ts: Toks, p: nat)
    requires n.Unary? && Good(n) && StandsAt(ts, p, Body(n))
    ensures var e := p + |Body(n)|; Stops(ts[e].kind, UNARY_LEVEL) ==> Level(ts, p, UNARY_LEVEL) == Ok(n, e)
    decreases n, 0
  {
    hide Shown, Stops;
    StandsSplit(ts, p, [Sym(n.op)], Shown(n.e, UNARY_LEVEL));
    StandsTok(ts, p, Sym(n.op));
    if Stops(ts[p + |Body(n)|].kind, UNARY_LEVEL) {
      AtLevel(n.e, UNARY_LEVEL, ts, p + 1);
    }
  }

  lemma {:induction false} NaturalIndex(n: Expr, ts: Toks, p: nat)
    requires n.Index? && Good(n) && StandsAt(ts, p, Body(n))
    ensures Level(ts, p, PRIMARY_LEVEL) == Indexed(ts, n, p + |Body(n)|)
    decreases n, 0
  {
    hide Shown, Level, Joined, Indexed, Stops, StandsAt;
    StopKinds();
    var a, i := Shown(n.of, PRIMARY_LEVEL), Shown(n.at, OR_LEVEL);
    StandsSplit(ts, p, a + [Plain(LBRACK)] + i, [Plain(RBRACK)]);
    StandsThree(ts, p, a, Plain(LBRACK), i);
    StandsTok(ts, p + |a| + 1 + |i|, Plain(RBRACK));
    PrimaryAt(n.of, ts, p);
    AtLevel(n.at, OR_LEVEL, ts, p + |a| + 1);
    IndexStep(ts, n.of, p + |a|, n.at, p + |a| + 1 + |i|);
  }

  lemma IndexStep(ts: Toks, a: Expr, p: nat, i: Expr, q: nat)
    requires p + 1 < |ts| && ts[p].kind == LBRACK && Level(ts, p + 1, OR_LEVEL) == Ok(i, q) && q < |ts|
    requires ts[q].kind == RBRACK
    ensures q + 1 < |ts| && Indexed(ts, a, p) == Indexed(ts, Index(a, i), q + 1)
  {
    hide Level;
  }

  lemma {:induction false} NaturalList(n: Expr, ts: Toks, p: nat)
    requires n.List? && Good(n) && StandsAt(ts, p, Body(n))
    ensures Level(ts, p, PRIMARY_LEVEL) == Indexed(ts, n, p + |Body(n)|)
    decreases n, 0
  {
    hide Shown, ShownItems, Joined, Indexed, Listed, Level, Atom, StandsAt;
    var w := ShownItems(n.items);
    StandsSplit(ts, p, [Plain(LBRACK)] + w, [Plain(RBRACK)]);
    StandsSplit(ts, p, [Plain(LBRACK)], w);
    StandsTok(ts, p, Plain(LBRACK));
    StandsTok(ts, p + 1 + |w|, Plain(RBRACK));
    ListedAt(n.items, RBRACK, ts, p + 1);
    ListAtom(ts, p, n.items, p + 1 + |w|);
    PrimaryDone(ts, p, n, p + |w| + 2);
  }

  lemma ListAtom(ts: Toks, p: nat, items: seq<Expr>, q: nat)
    requires p + 1 < |ts| && ts[p].kind == LBRACK && Listed(ts, p + 1, RBRACK) == Ok(items, q) && q + 1 < |ts|
    requires ts[q].kind == RBRACK
    ensures Atom(ts, p) == Ok(List(items), q + 1)
  {
    hide Level, Listed;
  }

  lemma CallAtom(ts: Toks, p: nat, args: seq<Expr>, q: nat)
    requires p + 2 < |ts| && ts[p].kind == NAME && ts[p + 1].kind == LPAREN
    requires Listed(ts, p + 2, RPAREN) == Ok(args, q) && q + 1 < |ts| && ts[q].kind == RPAREN
    ensures Atom(ts, p) == Ok(Call(ts[p].text, args), q + 1)
  {
    hide Level, Listed;
  }

  lemma {:induction false} NaturalCall(n: Expr, ts: Toks, p: nat)
    requires n.Call? && Good(n) && StandsAt(ts, p, Body(n))
    ensures Level(ts, p, PRIMARY_LEVEL) == Indexed(ts, n, p + |Body(n)|)
    decreases n, 0
  {
    hide Shown, ShownItems, Joined, Indexed, Listed, Level, Atom, StandsAt;
    var w, h := ShownItems(n.args), [Tok(NAME, n.f, 0), Plain(LPAREN)];
    StandsSplit(ts, p, h + w, [Plain(RPAREN)]);
    StandsSplit(ts, p, h, w);
    assert h == [Tok(NAME, n.f, 0)] + [Plain(LPAREN)];
    StandsSplit(ts, p, [Tok(NAME, n.f, 0)], [Plain(LPAREN)]);
    StandsTok(ts, p, Tok(NAME, n.f, 0));
    StandsTok(ts, p + 1, Plain(LPAREN));
    StandsTok(ts, p + 2 + |w|, Plain(RPAREN));
    ListedAt(n.args, RPAREN, ts, p + 2);
    CallAtom(ts, p, n.args, p + 2 + |w|);
    PrimaryDone(ts, p, n, p + |w| + 3);
  }

  /** A printed list is parsed up to its closing token. */
  lemma {:induction false} ListedAt(items: seq<Expr>, close: Kind, ts: Toks, p: nat)
    requires (forall i :: 0 <= i < |items| ==> Good(items[i])) && close in {RPAREN, RBRACK}
    requires StandsAt(ts, p, ShownItems(items)) && ts[p + |ShownItems(items)|].kind == close
    ensures Listed(ts, p, close) == Ok(items, p + |ShownItems(items)|)
    decreases items, 9
  {
    hide Shown, Level;
    if items != [] {
      ItemsFirst(items);
      assert ts[p] == ts[p..p + |ShownItems(items)|][0];
      ItemsAt(items, [], ts, p);
      assert [] + items == items;
    }
  }

  lemma ItemsFirst(items: seq<Expr>)
    requires |items| > 0 && Good(items[0])
    ensures Starts(ShownItems(items)[0].kind)
  {
    ShownFirst(items[0], OR_LEVEL);
    hide Shown;
  }

  lemma UnfoldItems(items: seq<Expr>)
    requires |items| > 0
    ensures var w := Shown(items[0], OR_LEVEL);
      ShownItems(items) == if |items| == 1 then w else w + [Plain(COMMA)] + ShownItems(items[1..])
  {
  }

  lemma StopKinds()
    ensures forall l :: Stops(COMMA, l) && Stops(RPAREN, l) && Stops(RBRACK, l)
  {
  }

  lemma ItemsLast(ts: Toks, before: seq<Expr>, p: nat, e: Expr, q: nat)
    requires p < |ts| && Level(ts, p, OR_LEVEL) == Ok(e, q) && q < |ts| && ts[q].kind != COMMA
    ensures Items(ts, before, p) == Ok(before + [e], q)
  {
  }

  lemma ItemsStep(ts: Toks, before: seq<Expr>, p: nat, e: Expr, q: nat)
    requires p < |ts| && Level(ts, p, OR_LEVEL) == Ok(e, q) && q < |ts| && ts[q].kind == COMMA
    ensures q + 1 < |ts| && Items(ts, before, p) == Items(ts, before + [e], q + 1)
  {
  }

  lemma {:induction false} ItemsAt(items: seq<Expr>, before: seq<Expr>, ts: Toks, p: nat)
    requires |items| > 0 && forall i :: 0 <= i < |items| ==> Good(items[i])
    requires StandsAt(ts, p, ShownItems(items)) && ts[p + |ShownItems(items)|].kind in {RPAREN, RBRACK}
    ensures Items(ts, before, p) == Ok(before + items, p + |ShownItems(items)|)
    decreases items, 8
  {
    hide Shown, Level, Items, ShownItems, Stops, StandsAt;
    var w := Shown(items[0], OR_LEVEL);
    UnfoldItems(items);
    StopKinds();
    if |items| == 1 {
      AtLevel(items[0], OR_LEVEL, ts, p);
      ItemsLast(ts, before, p, items[0], p + |w|);
      assert before + items == before + [items[0]];
    } else {
      var rest := ShownItems(items[1..]);
      StandsThree(ts, p, w, Plain(COMMA), rest);
      AtLevel(items[0], OR_LEVEL, ts, p);
      ItemsStep(ts, before, p, items[0], p + |w|);
      ItemsAt(items[1..], before + [items[0]], ts, p + |w| + 1);
      assert before + [items[0]] + items[1..] == before + items;
    }
  }

  /** A body is parsed at its node's level and at every looser one. */
  lemma {:induction false} BodyAt(n: Expr, level: nat, ts: Toks, p: nat)
    requires Good(n) && StandsAt(ts, p, Body(n)) && level <= LevelOf(n) && Stops(ts[p + |Body(n)|].kind, level)
    ensures Level(ts, p, level) == Ok(n, p + |Body(n)|)
    decreases n, 2, PRIMARY_LEVEL - level
  {
    hide Body, Level, Good;
    Natural(n, ts, p);
    var e := p + |Body(n)|;
    if level < LevelOf(n) {
      BodyFirst(n);
      assert ts[p] == ts[p..e][0];
      BodyAt(n, level + 1, ts, p);
      LevelDown(ts, p, level, n, e);
    }
  }

  /** What is parsed at a level is parsed at the looser one in front of it, if nothing carries it on. */
  lemma LevelDown(ts: Toks, p: nat, level: nat, n: Expr, e: nat)
    requires p < |ts| && e < |ts| && level < PRIMARY_LEVEL && Level(ts, p, level + 1) == Ok(n, e)
    requires Stops(ts[e].kind, level)
    requires level == UNARY_LEVEL ==> !Prefix(ts[p].kind)
    ensures Level(ts, p, level) == Ok(n, e)
  {
  }

  /** A body in parentheses is a primary. */
  lemma {:induction false} Parens(n: Expr, ts: Toks, p: nat)
    requires Good(n) && StandsAt(ts, p, [Plain(LPAREN)] + Body(n) + [Plain(RPAREN)])
    ensures Atom(ts, p) == Ok(n, p + |Body(n)| + 2)
    decreases n, 3
  {
    hide Body, Level, Atom, Good, StandsAt;
    StandsSplit(ts, p, [Plain(LPAREN)] + Body(n), [Plain(RPAREN)]);
    StandsSplit(ts, p, [Plain(LPAREN)], Body(n));
    StandsTok(ts, p, Plain(LPAREN));
    StandsTok(ts, p + 1 + |Body(n)|, Plain(RPAREN));
    BodyAt(n, OR_LEVEL, ts, p + 1);
    ParenAtom(ts, p, n, p + 1 + |Body(n)|);
  }

  lemma ParenAtom(ts: Toks, p: nat, n: Expr, q: nat)
    requires p + 1 < |ts| && ts[p].kind == LPAREN && Level(ts, p + 1, OR_LEVEL) == Ok(n, q) && q + 1 < |ts|
    requires ts[q].kind == RPAREN
    ensures Atom(ts, p) == Ok(n, q + 1)
  {
    hide Level;
  }

  lemma {:induction false} ParensAt(n: Expr, level: nat, ts: Toks, p: nat)
    requires Good(n) && StandsAt(ts, p, [Plain(LPAREN)] + Body(n) + [Plain(RPAREN)]) && level <= PRIMARY_LEVEL
    requires Stops(ts[p + |Body(n)| + 2].kind, level)
    ensures Level(ts, p, level) == Ok(n, p + |Body(n)| + 2)
    decreases n, 4, PRIMARY_LEVEL - level
  {
    hide Body, Level, Atom, Good;
    Parens(n, ts, p);
    var e := p + |Body(n)| + 2;
    if level < PRIMARY_LEVEL {
      assert ts[p] == ts[p..e][0];
      ParensAt(n, level + 1, ts, p);
      LevelDown(ts, p, level, n, e);
    } else {
      PrimaryDone(ts, p, n, e);
    }
  }

  lemma PrimaryDone(ts: Toks, p: nat, n: Expr, e: nat)
    requires p < |ts| && e < |ts| && Atom(ts, p) == Ok(n, e)
    ensures Level(ts, p, PRIMARY_LEVEL) == Indexed(ts, n, e)
    ensures ts[e].kind != LBRACK ==> Level(ts, p, PRIMARY_LEVEL) == Ok(n, e)
  {
  }

  /** What is printed for a level is parsed at that level, if nothing carries it on. */
  lemma {:induction false} AtLevel(n: Expr, level: nat, ts: Toks, p: nat)
    requires Good(n) && level <= PRIMARY_LEVEL && StandsAt(ts, p, Shown(n, level))
    requires Stops(ts[p + |Shown(n, level)|].kind, level)
    ensures Level(ts, p, level) == Ok(n, p + |Shown(n, level)|)
    decreases n, 5
  {
    hide Body, Level;
    if LevelOf(n) < level {
      ParensAt(n, level, ts, p);
    } else {
      BodyAt(n, level, ts, p);
    }
  }

  /** The left operand of a joined level: the level then goes on joining. */
  lemma {:induction false} LoopAt(n: Expr, level: nat, ts: Toks, p: nat)
    requires Good(n) && level < UNARY_LEVEL && level != COMPARE_LEVEL
    requires StandsAt(ts, p, Shown(n, level)) && Stops(ts[p + |Shown(n, level)|].kind, level + 1)
    ensures Level(ts, p, level) == Joined(ts, n, p + |Shown(n, level)|, level)
    decreases n, 6
  {
    hide Body, Joined, Stops, Good;
    if LevelOf(n) < level {
      ParensAt(n, level + 1, ts, p);
    } else if LevelOf(n) == level {
      Natural(n, ts, p);
    } else {
      BodyAt(n, level + 1, ts, p);
    }
  }

  /** What is subscripted. */
  lemma {:induction false} PrimaryAt(n: Expr, ts: Toks, p: nat)
    requires Good(n) && StandsAt(ts, p, Shown(n, PRIMARY_LEVEL)) && ts[p + |Shown(n, PRIMARY_LEVEL)|].kind != LPAREN
    ensures Level(ts, p, PRIMARY_LEVEL) == Indexed(ts, n, p + |Shown(n, PRIMARY_LEVEL)|)
    decreases n, 6
  {
    hide Body, Indexed, Level, Atom, Good;
    if LevelOf(n) < PRIMARY_LEVEL {
      Parens(n, ts, p);
      PrimaryDone(ts, p, n, p + |Body(n)| + 2);
    } else {
      Natural(n, ts, p);
    }
  }

  /**
   * For every tree the parser can build, parsing the printed tokens gives exactly that tree and stops right behind
   * them.
   */
  lemma ParsedShown(n: Expr, before: seq<Tok>, after: Toks)
    requires Good(n) && Stops(after[0].kind, OR_LEVEL)
    ensures var ts: Toks := before + Shown(n, OR_LEVEL) + after;
      Parsed(ts, |before|) == Ok(n, |before| + |Shown(n, OR_LEVEL)|)
  {
    hide Shown, Level, Good, Stops;
    var w := Shown(n, OR_LEVEL);
    var ts: Toks := before + w + after;
    assert ts[|before|..|before| + |w|] == w && ts[|before| + |w|] == after[0];
    AtLevel(n, OR_LEVEL, ts, |before|);
  }
}
