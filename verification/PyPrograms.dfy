/** What some programs of minipy compute: a branch, a counting loop, a sum over a list, a recursive function. */
module PyPrograms {
  import opened Wrappers
  import opened PyTokens
  import opened PyGrammar
  import opened PyEnv
  import opened PyEval
  import opened PyLaws

  /** An evaluation that ends well and leaves the names as they are. */
  ghost predicate Yields(w: World, st: St, e: Expr, fuel: nat, v: Value) {
    var r := Eval(w, st, e, fuel);
    r.v == v && r.st == st.(made := r.st.made)
  }

  /** In order, with nothing on its way. */
  ghost predicate Calm(st: St) { !Stopped(st) && Env(st.slots) }

  // ---- expressions ----

  lemma Atoms(w: World, st: St, fuel: nat)
    requires Calm(st)
    ensures forall i :: Yields(w, st, Int(i), fuel, IntV(i))
    ensures forall b :: Yields(w, st, Bool(b), fuel, BoolV(b))
    ensures forall s :: Yields(w, st, Str(s), fuel, StrV(s))
    ensures forall n :: At(st.slots, n).Some? ==> Yields(w, st, Name(n), fuel, At(st.slots, n).value)
  {
    hide At;
  }

  /** A name or a literal whose evaluation changes nothing at all. */
  predicate Atom(e: Expr) { e.Int? || e.Bool? || e.Str? || e.NoneLit? || e.Name? }

  lemma AtomSame(w: World, st: St, e: Expr, fuel: nat, v: Value)
    requires Calm(st) && Atom(e) && Yields(w, st, e, fuel, v)
    ensures Eval(w, st, e, fuel) == Out(st, v)
  {
    hide At;
  }

  lemma Operates(w: World, st: St, op: Kind, l: Expr, r: Expr, fuel: nat, x: Value, y: Value, z: Value)
    requires Calm(st) && op !in {AND, OR}
    requires Atom(l) && Yields(w, st, l, fuel, x) && Atom(r) && Yields(w, st, r, fuel, y)
    requires Arith(op, x, y, st.made) == Some(z)
    ensures Yields(w, st, Binop(op, l, r), fuel, z)
  {
    hide At, Arith;
    AtomSame(w, st, l, fuel, x);
    AtomSame(w, st, r, fuel, y);
  }

  lemma Tests(w: World, st: St, op: Kind, l: Expr, r: Expr, fuel: nat, x: Value, y: Value, z: Value)
    requires Calm(st) && Atom(l) && Yields(w, st, l, fuel, x) && Atom(r) && Yields(w, st, r, fuel, y)
    requires Compared(op, x, y) == Some(z)
    ensures Eval(w, st, Compare(op, l, r), fuel) == Out(st, z)
  {
    hide At, Compared;
    AtomSame(w, st, l, fuel, x);
    AtomSame(w, st, r, fuel, y);
  }

  /** For numbers that fit, the difference of two literals and the second one add up to the first. */
  lemma DifferenceOf(w: World, st: St, i: int, j: int, d: int, fuel: nat)
    requires Calm(st) && d + j == i && Fits(i) && Fits(j) && Fits(d)
    ensures Yields(w, st, Binop(MINUS, Int(i), Int(j)), fuel, IntV(d))
    ensures Yields(w, st, Binop(PLUS, Int(d), Int(j)), fuel, IntV(i))
  {
    hide Yields, Arith, Int32;
    Atoms(w, st, fuel);
    OfNumbers(IntV(i), IntV(j));
    OfNumbers(IntV(d), IntV(j));
    Small(d);
    Small(i);
    Operates(w, st, MINUS, Int(i), Int(j), fuel, IntV(i), IntV(j), IntV(d));
    Operates(w, st, PLUS, Int(d), Int(j), fuel, IntV(d), IntV(j), IntV(i));
  }

  /** `and` and `or` do not look at their second operand if the first decides, and are it otherwise. */
  lemma ShortCircuit(w: World, st: St, l: Expr, r: Expr, fuel: nat, v: Value)
    requires Calm(st) && Atom(l) && Yields(w, st, l, fuel, v)
    ensures Eval(w, st, Binop(AND, l, r), fuel) == if Falsy(v) then Out(st, v) else Eval(w, st, r, fuel)
    ensures Eval(w, st, Binop(OR, l, r), fuel) == if Falsy(v) then Eval(w, st, r, fuel) else Out(st, v)
  {
    AtomSame(w, st, l, fuel, v);
    FalsyIs(v);
    hide At, Truthy, Falsy;
  }

  lemma FalsyIs(v: Value)
    ensures Truthy(v) == !Falsy(v)
  {
    if v.ListV? && v.items == [] {
      assert v == ListV(v.id, []);
    }
  }

  // ---- statements ----

  /** Assigning binds that name, and only that one. */
  lemma Assigns(w: World, st: St, name: string, e: Expr, fuel: nat, v: Value)
    requires Calm(st) && At(st.slots, name).Some? && Yields(w, st, e, fuel, v)
    ensures var r := ExecOne(w, st, PyGrammar.Stmt.Assign(name, e), fuel);
      r.v == v && Calm(r.st) && Bound(st.slots, r.st.slots, name, Some(v))
  {
    hide At, Env, Eval, Stored;
    var st' := Eval(w, st, e, fuel).st;
    StoredBinds(st'.slots, name, v);
    BoundShort(st.slots, name);
    BoundEnv(st.slots, Stored(st'.slots, name, v).value, name, Some(v));
  }

  lemma BoundEnv(sl: seq<Slot>, sl': seq<Slot>, name: string, v: Option<Value>)
    requires Bound(sl, sl', name, v)
    ensures Env(sl')
  {
  }

  lemma OneStatement(w: World, st: St, s: Stmt, last: Value, fuel: nat)
    requires Calm(ExecOne(w, st, s, fuel).st)
    ensures Exec(w, st, last, [s], fuel) == ExecOne(w, st, s, fuel)
  {
    var r := ExecOne(w, st, s, fuel);
    assert [s][1..] == [];
    assert Exec(w, r.st, r.v, [], fuel) == Out(r.st, r.v);
  }

  /** A conditional runs its first block if the condition holds, and the other one if not. */
  lemma Branches(w: World, st: St, c: Expr, a: seq<Stmt>, b: seq<Stmt>, fuel: nat, v: Value)
    requires Calm(st) && Eval(w, st, c, fuel) == Out(st, v)
    ensures ExecOne(w, st, If(c, a, ElseBlock(b)), fuel) == Exec(w, st, NoneV, if Falsy(v) then b else a, fuel)
    ensures ExecOne(w, st, If(c, a, NoElse), fuel) == if Falsy(v) then Out(st, NoneV) else Exec(w, st, NoneV, a, fuel)
  {
    hide Eval, Exec, Truthy, Falsy;
    FalsyIs(v);
  }

  // ---- a branch ----

  /** `if a < b: m = a` and `else: m = b` */
  function Minimum(a: string, b: string, m: string): Stmt {
    If(Compare(LT, Name(a), Name(b)), [PyGrammar.Stmt.Assign(m, Name(a))],
       ElseBlock([PyGrammar.Stmt.Assign(m, Name(b))]))
  }

  /** It leaves the smaller of two numbers in the third name, and changes no other. */
  lemma MinimumRuns(w: World, st: St, a: string, b: string, m: string, x: int, y: int, fuel: nat)
    requires Calm(st) && At(st.slots, a) == Some(IntV(x)) && At(st.slots, b) == Some(IntV(y)) && At(st.slots, m).Some?
    ensures var r := ExecOne(w, st, Minimum(a, b, m), fuel).st;
      Calm(r) && Bound(st.slots, r.slots, m, Some(IntV(if x <= y then x else y)))
  {
    hide At, Env, Bound, Eval, ExecOne, Exec, Compared, Yields;
    Atoms(w, st, fuel);
    var c := Compare(LT, Name(a), Name(b));
    Compares(IntV(x), IntV(y));
    LessMeans(IntV(x), IntV(y));
    var less := BoolV(x < y);
    Tests(w, st, LT, Name(a), Name(b), fuel, IntV(x), IntV(y), less);
    var p, q := PyGrammar.Stmt.Assign(m, Name(a)), PyGrammar.Stmt.Assign(m, Name(b));
    Branches(w, st, c, [p], [q], fuel, less);
    Assigns(w, st, m, Name(a), fuel, IntV(x));
    Assigns(w, st, m, Name(b), fuel, IntV(y));
    OneStatement(w, st, p, NoneV, fuel);
    OneStatement(w, st, q, NoneV, fuel);
  }

  // ---- a counting loop ----

  /** `while n < limit: n = n + 1` */
  function Counting(n: string, limit: int): Stmt {
    While(Compare(LT, Name(n), Int(limit)), [PyGrammar.Stmt.Assign(n, Binop(PLUS, Name(n), Int(1)))])
  }

  lemma CountStep(w: World, st: St, n: string, x: int, fuel: nat)
    requires Calm(st) && At(st.slots, n) == Some(IntV(x)) && Fits(x + 1) && Fits(x)
    ensures var r := Exec(w, st, NoneV, [PyGrammar.Stmt.Assign(n, Binop(PLUS, Name(n), Int(1)))], fuel).st;
      Calm(r) && Bound(st.slots, r.slots, n, Some(IntV(x + 1)))
  {
    hide At, Env, Bound, Eval, ExecOne, Exec, Arith, Yields, Int32;
    Atoms(w, st, fuel);
    OfNumbers(IntV(x), IntV(1));
    Small(x + 1);
    var e := Binop(PLUS, Name(n), Int(1));
    Operates(w, st, PLUS, Name(n), Int(1), fuel, IntV(x), IntV(1), IntV(x + 1));
    Assigns(w, st, n, e, fuel, IntV(x + 1));
    OneStatement(w, st, PyGrammar.Stmt.Assign(n, e), NoneV, fuel);
  }

  lemma LoopStep(w: World, st: St, s: Stmt, left: nat, fuel: nat, v: Value)
    requires s.While? && left > 0 && Calm(st) && Eval(w, st, s.cond, fuel) == Out(st, v)
    ensures Falsy(v) ==> Loop(w, st, s, left, fuel) == Out(st, NoneV)
    ensures !Falsy(v) && Calm(Exec(w, st, NoneV, s.body, fuel).st) ==>
      Loop(w, st, s, left, fuel) == Loop(w, Exec(w, st, NoneV, s.body, fuel).st, s, left - 1, fuel)
  {
    hide Eval, Exec, Truthy, Falsy;
    FalsyIs(v);
  }

  lemma {:induction false} CountLeft(w: World, st: St, n: string, x: int, limit: int, left: nat, fuel: nat)
    requires Calm(st) && At(st.slots, n) == Some(IntV(x)) && x <= limit && Fits(x) && Fits(limit)
    ensures var r := Loop(w, st, Counting(n, limit), left, fuel).st;
      Calm(r) && Bound(st.slots, r.slots, n, Some(IntV(if limit - x <= left then limit else x + left)))
    decreases left
  {
    hide At, Env, Eval, Loop, Exec, Compared, Yields, Falsy;
    var s := Counting(n, limit);
    if left == 0 {
      NoMore(w, st, s, fuel);
      BoundSelf(st.slots, n);
    } else {
      Atoms(w, st, fuel);
      Compares(IntV(x), IntV(limit));
      LessMeans(IntV(x), IntV(limit));
      Tests(w, st, LT, Name(n), Int(limit), fuel, IntV(x), IntV(limit), BoolV(x < limit));
      LoopStep(w, st, s, left, fuel, BoolV(x < limit));
      BoolFalsy();
      if x < limit {
        CountStep(w, st, n, x, fuel);
        CountLeft(w, Exec(w, st, NoneV, s.body, fuel).st, n, x + 1, limit, left - 1, fuel);
      } else {
        BoundSelf(st.slots, n);
      }
    }
  }

  lemma BoolFalsy()
    ensures forall b :: Falsy(BoolV(b)) <==> !b
  {
  }

  lemma NoMore(w: World, st: St, s: Stmt, fuel: nat)
    requires s.While?
    ensures Loop(w, st, s, 0, fuel) == Out(st, NoneV)
  {
  }

  lemma BoundSelf(sl: seq<Slot>, n: string)
    requires Env(sl)
    ensures Bound(sl, sl, n, At(sl, n))
  {
    hide At, Env;
  }

  /** The loop counts up to the limit, but no further than the guard of loops lets it. */
  lemma CountingRuns(w: World, st: St, n: string, x: int, limit: int, fuel: nat)
    requires Calm(st) && At(st.slots, n) == Some(IntV(x)) && x <= limit && Fits(x) && Fits(limit)
    ensures var r := ExecOne(w, st, Counting(n, limit), fuel).st;
      Calm(r) && Bound(st.slots, r.slots, n, Some(IntV(if limit - x <= WHILE_GUARD then limit else x + WHILE_GUARD)))
  {
    hide At, Env, Bound, Loop;
    CountLeft(w, st, n, x, limit, WHILE_GUARD, fuel);
  }

  // ---- a sum over a list ----

  /** `for x in over: s = s + x` */
  function Summing(s: string, x: string, over: Expr): Stmt {
    For(x, over, [PyGrammar.Stmt.Assign(s, Binop(PLUS, Name(s), Name(x)))])
  }

  function Sum(vs: seq<int>): int { if vs == [] then 0 else vs[0] + Sum(vs[1..]) }

  function Ints(vs: seq<int>): (r: seq<Value>)
    ensures |r| == |vs| && forall i :: 0 <= i < |vs| ==> r[i] == IntV(vs[i])
  {
    seq(|vs|, i requires 0 <= i < |vs| => IntV(vs[i]))
  }

  lemma SumStep(w: World, st: St, s: string, x: string, t: int, v: int, fuel: nat)
    requires Calm(st) && s != x && At(st.slots, s) == Some(IntV(t)) && At(st.slots, x).Some?
    ensures var st1 := Assigned(st, x, IntV(v));
      var r := Exec(w, st1, NoneV, [PyGrammar.Stmt.Assign(s, Binop(PLUS, Name(s), Name(x)))], fuel).st;
      && !st1.err && Calm(r) && At(r.slots, s) == Some(IntV(Int32(t + v))) && At(r.slots, x) == Some(IntV(v))
      && forall n :: n != s && n != x ==> At(r.slots, n) == At(st.slots, n)
  {
    hide At, Env, Eval, ExecOne, Exec, Arith, Yields, Int32, Stored;
    StoredBinds(st.slots, x, IntV(v));
    BoundShort(st.slots, x);
    var st1 := Assigned(st, x, IntV(v));
    BoundEnv(st.slots, st1.slots, x, Some(IntV(v)));
    Atoms(w, st1, fuel);
    OfNumbers(IntV(t), IntV(v));
    var e := Binop(PLUS, Name(s), Name(x));
    Operates(w, st1, PLUS, Name(s), Name(x), fuel, IntV(t), IntV(v), IntV(Int32(t + v)));
    Assigns(w, st1, s, e, fuel, IntV(Int32(t + v)));
    OneStatement(w, st1, PyGrammar.Stmt.Assign(s, e), NoneV, fuel);
  }

  /** Each item in turn is bound to the loop's name and added. */
  lemma {:induction false} SumLeft(w: World, st: St, s: string, x: string, over: Expr, t: int, vs: seq<int>, fuel: nat)
    requires Calm(st) && s != x && At(st.slots, s) == Some(IntV(t)) && At(st.slots, x).Some? && t == Int32(t)
    ensures var r := Each(w, st, Summing(s, x, over), Ints(vs), fuel).st;
      && Calm(r) && At(r.slots, s) == Some(IntV(Int32(t + Sum(vs))))
      && At(r.slots, x) == (if vs == [] then At(st.slots, x) else Some(IntV(vs[|vs| - 1])))
      && forall n :: n != s && n != x ==> At(r.slots, n) == At(st.slots, n)
    decreases |vs|
  {
    hide At, Env, Eval, Exec, Assigned, Int32;
    if vs != [] {
      SumStep(w, st, s, x, t, vs[0], fuel);
      var f := Summing(s, x, over);
      var st1 := Exec(w, Assigned(st, x, IntV(vs[0])), NoneV, f.body, fuel).st;
      Int32Step(t + vs[0], 1, Sum(vs[1..]));
      Int32Step(t + vs[0], 1, 0);
      assert Ints(vs)[1..] == Ints(vs[1..]);
      SumLeft(w, st1, s, x, over, Int32(t + vs[0]), vs[1..], fuel);
    }
  }

  /** The loop adds up the numbers of a list, in 32 bits, and leaves the last one in its name. */
  lemma SummingRuns(w: World, st: St, s: string, x: string, over: Expr, t: int, id: nat, vs: seq<int>, fuel: nat)
    requires Calm(st) && s != x && At(st.slots, s) == Some(IntV(t)) && At(st.slots, x).Some? && t == Int32(t)
    requires Yields(w, st, over, fuel, ListV(id, Ints(vs)))
    ensures var r := ExecOne(w, st, Summing(s, x, over), fuel).st;
      && Calm(r) && At(r.slots, s) == Some(IntV(Int32(t + Sum(vs))))
      && At(r.slots, x) == (if vs == [] then At(st.slots, x) else Some(IntV(vs[|vs| - 1])))
      && forall n :: n != s && n != x ==> At(r.slots, n) == At(st.slots, n)
  {
    hide At, Env, Eval, Each, Int32, ExecOne, Ints, Sum;
    var r := Eval(w, st, over, fuel);
    SumLeft(w, r.st, s, x, over, t, vs, fuel);
    Goes(w, st, Summing(s, x, over), r.st, id, Ints(vs), fuel);
  }

  /** A `for` goes over the items of a list. */
  lemma Goes(w: World, st: St, s: Stmt, st1: St, id: nat, items: seq<Value>, fuel: nat)
    requires s.For? && !Stopped(st) && !Stopped(st1) && Eval(w, st, s.over, fuel) == Out(st1, ListV(id, items))
    ensures ExecOne(w, st, s, fuel) == Each(w, st1, s, items, fuel)
  {
    hide Eval, Each;
  }

  // ---- a recursive function ----

  function Factorial(n: nat): nat { if n == 0 then 1 else n * Factorial(n - 1) }

  /** `if n == 0: return 1` and `return n * f(n - 1)` */
  function FactorialBody(f: string, n: string): seq<Stmt> {
    [If(Compare(EQEQ, Name(n), Int(0)), [Return(Some(Int(1)))], NoElse),
     Return(Some(Binop(STAR, Name(n), Call(f, [Binop(MINUS, Name(n), Int(1))]))))]
  }

  /** The name stands for that function. */
  ghost predicate Defined(st: St, f: string, n: string) {
    var v := At(st.slots, f);
    f != n && v.Some? && v.value.FuncV? && v.value.params == [n] && v.value.body == FactorialBody(f, n)
  }

  /** The call ends well with this number, and every name is bound as before. */
  ghost predicate Computes(st: St, r: Out, k: int) {
    r.v == IntV(k) && Calm(r.st) && forall x :: At(r.st.slots, x) == At(st.slots, x)
  }

  lemma Binds(w: World, st: St, n: string, e: Expr, fuel: nat, v: Value)
    requires Calm(st) && At(st.slots, n).Some? && Yields(w, st, e, fuel, v)
    ensures var p := Passed(w, st, [n], [e], fuel);
      p.saved == [At(st.slots, n)] && Calm(p.st) && Bound(st.slots, p.st.slots, n, Some(v))
  {
    hide At, Env, Eval, Stored, Bound;
    var st1 := Eval(w, st, e, fuel).st;
    StoredBinds(st1.slots, n, v);
    BoundShort(st.slots, n);
    BoundEnv(st.slots, Stored(st1.slots, n, v).value, n, Some(v));
    assert [n][1..] == [] && [e][1..] == [];
    var st2 := Bind(w, st, n, e, fuel);
    assert Passed(w, st2, [], [], fuel) == Args(st2, []);
  }

  /** Giving the parameter's name back what it was bound to. */
  lemma GivesBack(st: St, st1: St, n: string)
    requires Calm(st1) && At(st.slots, n).Some? && At(st1.slots, n).Some?
    requires forall x :: x != n ==> At(st1.slots, x) == At(st.slots, x)
    ensures var r := Restored(st1, [n], [At(st.slots, n)]);
      Calm(r) && forall x :: At(r.slots, x) == At(st.slots, x)
  {
    hide At, Env, Stored;
    var v := At(st.slots, n).value;
    StoredBinds(st1.slots, n, v);
    BoundShort(st1.slots, n);
    BoundEnv(st1.slots, Stored(st1.slots, n, v).value, n, Some(v));
    assert [n][1..] == [] && [At(st.slots, n)][1..] == [];
    var r := GivenBack(st1, n, Some(v));
    assert Restored(r, [], []) == r;
  }

  /** What a call comes to, from what its body comes to. */
  lemma CallIs(w: World, st: St, n: string, body: seq<Stmt>, e: Expr, fuel: nat, v: Value, k: int)
    requires Calm(st) && At(st.slots, n).Some? && Yields(w, st, e, fuel, v) && fuel > 0
    requires var p := Passed(w, st, [n], [e], fuel).st.(returning := false, retval := NoneV);
      var r := Exec(w, p, NoneV, body, fuel - 1).st;
      && r.returning && r.retval == IntV(k) && !r.err && Env(r.slots)
      && forall x :: At(r.slots, x) == At(p.slots, x)
    ensures Computes(st, Invoke(w, st, [n], body, [e], fuel), k)
  {
    hide At, Env, Passed, Restored, Yields, Exec;
    Binds(w, st, n, e, fuel, v);
    var p := Passed(w, st, [n], [e], fuel).st.(returning := false, retval := NoneV);
    var r := Exec(w, p, NoneV, body, fuel - 1).st;
    GivesBack(st, r.(returning := false), n);
  }

  /** The body's first statement returns at zero, and does nothing above. */
  lemma ZeroTest(w: World, st: St, n: string, k: int, fuel: nat)
    requires Calm(st) && At(st.slots, n) == Some(IntV(k))
    ensures var r := ExecOne(w, st, If(Compare(EQEQ, Name(n), Int(0)), [Return(Some(Int(1)))], NoElse), fuel);
      r == if k == 0 then Out(st.(returning := true, retval := IntV(1)), IntV(1)) else Out(st, NoneV)
  {
    hide At, Env, Eval, ExecOne, Exec, Compared, Yields, Falsy;
    Atoms(w, st, fuel);
    Compares(IntV(k), IntV(0));
    LessMeans(IntV(k), IntV(0));
    BoolFalsy();
    Tests(w, st, EQEQ, Name(n), Int(0), fuel, IntV(k), IntV(0), BoolV(k == 0));
    Branches(w, st, Compare(EQEQ, Name(n), Int(0)), [Return(Some(Int(1)))], [], fuel, BoolV(k == 0));
    ReturnsOne(w, st, fuel);
  }

  lemma ReturnsOne(w: World, st: St, fuel: nat)
    requires Calm(st)
    ensures Exec(w, st, NoneV, [Return(Some(Int(1)))], fuel)
      == Out(st.(returning := true, retval := IntV(1)), IntV(1))
  {
    hide At, Env, Exec, ExecOne, Eval;
    Atoms(w, st, fuel);
    AtomSame(w, st, Int(1), fuel, IntV(1));
    var one: seq<Stmt> := [Return(Some(Int(1)))];
    assert one + [] == one;
    Returns(w, st, Int(1), [], NoneV, fuel);
  }

  /** A return with a value ends a block with it. */
  lemma Returns(w: World, st: St, e: Expr, rest: seq<Stmt>, last: Value, fuel: nat)
    requires Calm(st) && Calm(Eval(w, st, e, fuel).st)
    ensures var r := Eval(w, st, e, fuel);
      Exec(w, st, last, [Return(Some(e))] + rest, fuel) == Out(r.st.(returning := true, retval := r.v), r.v)
  {
    hide Eval, Env;
    assert ([Return(Some(e))] + rest)[0] == Return(Some(e));
  }

  /** A statement that ends well hands its state to those behind it. */
  lemma ThenOn(w: World, st: St, s: Stmt, rest: seq<Stmt>, last: Value, fuel: nat)
    ensures var r := ExecOne(w, st, s, fuel);
      Exec(w, st, last, [s] + rest, fuel) ==
        if Stopped(r.st) then Out(r.st, if r.st.returning then r.st.retval else r.v) else Exec(w, r.st, r.v, rest, fuel)
  {
    hide ExecOne;
    assert ([s] + rest)[0] == s && ([s] + rest)[1..] == rest;
  }

  /** The product of a name and a call. */
  lemma Multiplies(w: World, st: St, n: string, c: Expr, fuel: nat, k: int, m: int, r: Out)
    requires Calm(st) && At(st.slots, n) == Some(IntV(k)) && c.Call? && Eval(w, st, c, fuel) == r && Computes(st, r, m)
    requires Fits(k * m)
    ensures Computes(st, Eval(w, st, Binop(STAR, Name(n), c), fuel), k * m)
  {
    hide Arith, Int32, Env;
    hide At, Eval;
    OfNumbers(IntV(k), IntV(m));
    Small(k * m);
    Atoms(w, st, fuel);
    AtomSame(w, st, Name(n), fuel, IntV(k));
    BinopIs(w, st, STAR, Name(n), c, fuel);
  }

  lemma BinopIs(w: World, st: St, op: Kind, l: Expr, r: Expr, fuel: nat)
    requires !Stopped(st) && op !in {AND, OR}
    ensures var a := Eval(w, st, l, fuel);
      var b := Eval(w, a.st, r, fuel);
      !Stopped(a.st) && !Stopped(b.st) ==>
        Eval(w, st, Binop(op, l, r), fuel) == Given(b.st.(made := b.st.made + 1), Arith(op, a.v, b.v, b.st.made))
  {
    hide Arith, At;
  }

  /** Called with any number up to 12, it gives the factorial, if there is depth enough. */
  lemma {:induction false} FactorialRuns(w: World, st: St, f: string, n: string, e: Expr, k: nat, fuel: nat)
    requires Calm(st) && Defined(st, f, n) && At(st.slots, n).Some? && Yields(w, st, e, fuel, IntV(k))
    requires k <= 12 && fuel > k
    ensures Computes(st, Eval(w, st, Call(f, [e]), fuel), Factorial(k))
    decreases k
  {
    hide At, Env, Eval, Passed, Yields, ExecOne, Exec, Invoke, Factorial;
    var p := Passed(w, st, [n], [e], fuel).st.(returning := false, retval := NoneV);
    Binds(w, st, n, e, fuel, IntV(k));
    ZeroTest(w, p, n, k, fuel - 1);
    var body := FactorialBody(f, n);
    FactorialIs(k);
    if k > 0 {
      var arg := Binop(MINUS, Name(n), Int(1));
      DifferenceHere(w, p, n, k, fuel - 1);
      FactorialRuns(w, p, f, n, arg, k - 1, fuel - 1);
      Multiplies(w, p, n, Call(f, [arg]), fuel - 1, k, Factorial(k - 1), Eval(w, p, Call(f, [arg]), fuel - 1));
    }
    BodyRuns(w, p, f, n, k, fuel - 1);
    CallIs(w, st, n, body, e, fuel, IntV(k), Factorial(k));
    CallsIt(w, st, f, n, e, fuel);
  }

  lemma FactorialIs(k: nat)
    requires k <= 12
    ensures Factorial(k) == (if k == 0 then 1 else k * Factorial(k - 1)) && Fits(Factorial(k))
  {
    assert Factorial(3) == 6 && Factorial(4) == 24 && Factorial(5) == 120;
    assert Factorial(6) == 720 && Factorial(7) == 5040 && Factorial(8) == 40320;
    assert Factorial(9) == 362880 && Factorial(10) == 3628800 && Factorial(11) == 39916800;
    assert Factorial(12) == 479001600;
  }

  lemma DifferenceHere(w: World, st: St, n: string, k: int, fuel: nat)
    requires Calm(st) && At(st.slots, n) == Some(IntV(k)) && Fits(k - 1)
    ensures Yields(w, st, Binop(MINUS, Name(n), Int(1)), fuel, IntV(k - 1))
  {
    hide At, Yields, Arith, Int32;
    Atoms(w, st, fuel);
    OfNumbers(IntV(k), IntV(1));
    Small(k - 1);
    Operates(w, st, MINUS, Name(n), Int(1), fuel, IntV(k), IntV(1), IntV(k - 1));
  }

  lemma BodyRuns(w: World, p: St, f: string, n: string, k: nat, fuel: nat)
    requires Calm(p) && At(p.slots, n) == Some(IntV(k))
    requires k > 0 ==> Computes(p, Eval(w, p, FactorialBody(f, n)[1].value.value, fuel), Factorial(k))
    requires k == 0 ==> Factorial(k) == 1
    ensures var r := Exec(w, p, NoneV, FactorialBody(f, n), fuel).st;
      && r.returning && r.retval == IntV(Factorial(k)) && !r.err && Env(r.slots)
      && forall x :: At(r.slots, x) == At(p.slots, x)
  {
    hide At, Env, Eval, Factorial, Exec, ExecOne;
    ZeroTest(w, p, n, k, fuel);
    var body := FactorialBody(f, n);
    assert body == [body[0]] + [body[1]] && [body[1]] == [body[1]] + [];
    ThenOn(w, p, body[0], [body[1]], NoneV, fuel);
    if k > 0 {
      Returns(w, p, body[1].value.value, [], NoneV, fuel);
    }
  }

  lemma CallsIt(w: World, st: St, f: string, n: string, e: Expr, fuel: nat)
    requires Calm(st) && Defined(st, f, n)
    ensures Eval(w, st, Call(f, [e]), fuel) == Invoke(w, st, [n], FactorialBody(f, n), [e], fuel)
  {
    hide At, Env, Invoke, FactorialBody;
  }

  // ---- more about expressions ----

  /** Quotient times divisor plus remainder is the dividend, as an expression. */
  lemma DivisionOf(w: World, st: St, i: int, j: int, fuel: nat)
    requires Calm(st) && Fits(i) && Fits(j) && j != 0 && !(i == -0x8000_0000 && j == -1)
    ensures var q, r := Binop(SLASH, Int(i), Int(j)), Binop(PERCENT, Int(i), Int(j));
      Yields(w, st, Binop(PLUS, Binop(STAR, q, Int(j)), r), fuel, IntV(i))
  {
    hide At, Eval, Arith, Int32, Abs;
    var q, r := Divides(IntV(i), IntV(j));
    var eq, er := Binop(SLASH, Int(i), Int(j)), Binop(PERCENT, Int(i), Int(j));
    Atoms(w, st, fuel);
    Operates(w, st, SLASH, Int(i), Int(j), fuel, IntV(i), IntV(j), IntV(q));
    var st1 := Eval(w, st, eq, fuel).st;
    Atoms(w, st1, fuel);
    AtomSame(w, st1, Int(j), fuel, IntV(j));
    OfNumbers(IntV(q), IntV(j));
    BinopIs(w, st, STAR, eq, Int(j), fuel);
    var st2 := Eval(w, st, Binop(STAR, eq, Int(j)), fuel).st;
    Atoms(w, st2, fuel);
    Operates(w, st2, PERCENT, Int(i), Int(j), fuel, IntV(i), IntV(j), IntV(r));
    OfNumbers(IntV(Int32(q * j)), IntV(r));
    BinopIs(w, st, PLUS, Binop(STAR, eq, Int(j)), er, fuel);
    Int32Step(q * j, 1, r);
    Small(i);
    assert Int32(q * j) * 1 + r == Int32(q * j) + r && q * j * 1 + r == i;
  }

  /** The values of literals. */
  function Numerals(vs: seq<int>): (es: seq<Expr>)
    ensures |es| == |vs| && forall i :: 0 <= i < |vs| ==> es[i] == Int(vs[i])
  {
    seq(|vs|, i requires 0 <= i < |vs| => Int(vs[i]))
  }

  lemma {:induction false} AllNumerals(w: World, st: St, vs: seq<int>, fuel: nat)
    requires Calm(st)
    ensures EvalAll(w, st, Numerals(vs), fuel) == Outs(st, Ints(vs))
    decreases |vs|
  {
    hide At, Eval, Env;
    if vs != [] {
      Atoms(w, st, fuel);
      AtomSame(w, st, Int(vs[0]), fuel, IntV(vs[0]));
      assert Numerals(vs)[1..] == Numerals(vs[1..]) && Ints(vs) == [IntV(vs[0])] + Ints(vs[1..]);
      AllNumerals(w, st, vs[1..], fuel);
    }
  }

  /** A list of literals has their values, as far as a list holds them. */
  lemma Listed(w: World, st: St, vs: seq<int>, fuel: nat)
    requires Calm(st) && |vs| <= LIST_MAX
    ensures Yields(w, st, List(Numerals(vs)), fuel, ListV(st.made, Ints(vs)))
  {
    hide At;
    AllNumerals(w, st, vs, fuel);
  }

  /** Item k of a list of literals is the k-th of them, and item -k the k-th from the end. */
  lemma ItemOf(w: World, st: St, vs: seq<int>, k: int, fuel: nat)
    requires Calm(st) && |vs| <= LIST_MAX && 0 <= k < |vs|
    ensures Yields(w, st, Index(List(Numerals(vs)), Int(k)), fuel, IntV(vs[k]))
    ensures Yields(w, st, Index(List(Numerals(vs)), Int(k - |vs|)), fuel, IntV(vs[k]))
  {
    hide At, Eval, Item;
    Listed(w, st, vs, fuel);
    var a := Eval(w, st, List(Numerals(vs)), fuel);
    ItemsCounted(a.v, k);
    ItemsCounted(a.v, |vs| - k);
    Atoms(w, a.st, fuel);
    AtomSame(w, a.st, Int(k), fuel, IntV(k));
    AtomSame(w, a.st, Int(k - |vs|), fuel, IntV(k - |vs|));
    IndexIs(w, st, List(Numerals(vs)), Int(k), fuel);
    IndexIs(w, st, List(Numerals(vs)), Int(k - |vs|), fuel);
  }

  lemma {:induction false} IndexIs(w: World, st: St, of: Expr, at: Expr, fuel: nat)
    requires !Stopped(st)
    ensures var a := Eval(w, st, of, fuel);
      var b := Eval(w, a.st, at, fuel);
      !Stopped(a.st) && !Stopped(b.st) && b.v.IntV? ==>
        Eval(w, st, Index(of, at), fuel) == Given(b.st, Item(a.v, b.v.i))
  {
    hide At, Item;
  }

  /** `for x in [..]: s = s + x` adds up the numbers written. */
  lemma SumOfNumerals(w: World, st: St, s: string, x: string, vs: seq<int>, fuel: nat)
    requires Calm(st) && s != x && At(st.slots, s) == Some(IntV(0)) && At(st.slots, x).Some? && |vs| <= LIST_MAX
    ensures var r := ExecOne(w, st, Summing(s, x, List(Numerals(vs))), fuel).st;
      Calm(r) && At(r.slots, s) == Some(IntV(Int32(Sum(vs))))
  {
    hide At, Env, Eval, ExecOne, Int32, Yields;
    Small(0);
    Listed(w, st, vs, fuel);
    SummingRuns(w, st, s, x, List(Numerals(vs)), 0, st.made, vs, fuel);
  }

  /** A function that ends without a `return` gives the value of its last statement, which a bare call does not have. */
  lemma {:induction false} FallsOff(w: World, st: St, e: Expr, fuel: nat)
    requires Calm(st) && fuel > 0
    ensures var entry := st.(returning := false, retval := NoneV);
      var r := Eval(w, entry, e, fuel - 1);
      Calm(r.st) ==> Invoke(w, st, [], [ExprStmt(e)], [], fuel).v == if e.Call? then NoneV else r.v
  {
    hide Eval, Env;
    var entry := st.(returning := false, retval := NoneV);
    if Calm(Eval(w, entry, e, fuel - 1).st) {
      OneStatement(w, entry, ExprStmt(e), NoneV, fuel - 1);
    }
  }
}
