/**
 * The order of evaluation, as built-in functions see it: what was asked is never forgotten, and operands, items and
 * arguments ask one after the other.
 */
module PyOrder {
  import opened Wrappers
  import opened PyGrammar
  import opened PyEnv
  import opened PyEval
  import opened PyScope

  ghost predicate Begins(a: seq<Ask>, b: seq<Ask>) { a <= b }

  /** What had been asked was asked first; no object is made twice, and an error stays. */
  ghost predicate Later(a: St, b: St) { Begins(a.asked, b.asked) && a.made <= b.made && (a.err ==> b.err) }

  lemma LaterSelf(a: St)
    ensures Later(a, a)
  {
  }

  lemma LaterOn(a: St, b: St, c: St)
    requires Later(a, b) && Later(b, c)
    ensures Later(a, c)
  {
  }

  lemma LaterAsk(st: St, ask: Ask)
    ensures Later(st, st.(asked := st.asked + [ask]))
  {
  }

  // ---- nothing is forgotten ----

  lemma {:induction false} EvalLater(w: World, st: St, e: Expr, fuel: nat)
    ensures Later(st, Eval(w, st, e, fuel).st)
    decreases fuel, e, 2
  {
    hide At, Arith, Compared, Item, Signed, Invoke, Builtin, EvalAll, Begins;
    LaterSelf(st);
    if Stopped(st) { return; }
    match e
    case List(items) => EvalAllLater(w, st, items, fuel);
    case Index(x, y) => PairLater(w, st, e, x, y, fuel);
    case Unary(op, x) => EvalLater(w, st, x, fuel);
    case Binop(op, x, y) => PairLater(w, st, e, x, y, fuel);
    case Compare(op, x, y) => PairLater(w, st, e, x, y, fuel);
    case Call(f, args) =>
      var fn := At(st.slots, f);
      if fn.Some? && fn.value.FuncV? {
        InvokeLater(w, st, fn.value.params, fn.value.body, args, fuel);
      } else {
        BuiltinLater(w, st, f, |args|, [], args, fuel);
      }
    case _ =>
  }

  lemma {:induction false} PairLater(w: World, st: St, e: Expr, x: Expr, y: Expr, fuel: nat)
    requires x < e && y < e
    ensures var a := Eval(w, st, x, fuel).st;
      var b := Eval(w, a, y, fuel).st;
      Later(st, a) && Later(a, b) && Later(st, b)
    decreases fuel, e, 0
  {
    hide Eval, Later;
    var a := Eval(w, st, x, fuel).st;
    EvalLater(w, st, x, fuel);
    EvalLater(w, a, y, fuel);
    LaterOn(st, a, Eval(w, a, y, fuel).st);
  }

  lemma {:induction false} EvalAllLater(w: World, st: St, es: seq<Expr>, fuel: nat)
    ensures Later(st, EvalAll(w, st, es, fuel).st)
    decreases fuel, es
  {
    hide Eval, Later;
    LaterSelf(st);
    if es != [] {
      var r := Eval(w, st, es[0], fuel);
      EvalLater(w, st, es[0], fuel);
      EvalAllLater(w, r.st, es[1..], fuel);
      LaterOn(st, r.st, EvalAll(w, r.st, es[1..], fuel).st);
    }
  }

  lemma {:induction false} BuiltinLater(w: World, st: St, name: string, given: nat, values: seq<Value>, args: seq<Expr>,
                                        fuel: nat)
    ensures Later(st, Builtin(w, st, name, given, values, args, fuel).st)
    decreases fuel, args
  {
    hide Eval, Begins;
    var ask := Ask(name, given, values);
    var st' := st.(asked := st.asked + [ask]);
    LaterAsk(st, ask);
    if w.answer(st.asked, ask).Next? && args != [] {
      var r := Eval(w, st', args[0], fuel);
      EvalLater(w, st', args[0], fuel);
      LaterOn(st, st', r.st);
      BuiltinLater(w, r.st, name, given, values + [r.v], args[1..], fuel);
      LaterOn(st, r.st, Builtin(w, r.st, name, given, values + [r.v], args[1..], fuel).st);
    }
  }

  lemma {:induction false} InvokeLater(w: World, st: St, params: seq<string>, body: seq<Stmt>, args: seq<Expr>,
                                       fuel: nat)
    ensures Later(st, Invoke(w, st, params, body, args, fuel).st)
    decreases fuel, args, 1
  {
    hide Exec, Passed, Restored, Begins;
    LaterSelf(st);
    if |params| == |args| <= FUNC_ARGS && fuel > 0 {
      var p := Passed(w, st, params, args, fuel);
      PassedLater(w, st, params, args, fuel);
      if !p.st.err {
        var entry := p.st.(returning := false, retval := NoneV);
        var r := Exec(w, entry, NoneV, body, fuel - 1);
        ExecLater(w, entry, NoneV, body, fuel - 1);
        LaterOn(st, p.st, r.st);
        RestoredLater(r.st.(returning := false), params, p.saved);
        LaterOn(st, r.st, Restored(r.st.(returning := false), params, p.saved));
      }
    }
  }

  lemma {:induction false} PassedLater(w: World, st: St, params: seq<string>, args: seq<Expr>, fuel: nat)
    requires |params| == |args|
    ensures Later(st, Passed(w, st, params, args, fuel).st)
    decreases fuel, args, 0
  {
    hide Bind, At, Later;
    LaterSelf(st);
    if params != [] {
      var st' := Bind(w, st, params[0], args[0], fuel);
      BindLater(w, st, params[0], args[0], fuel);
      PassedLater(w, st', params[1..], args[1..], fuel);
      LaterOn(st, st', Passed(w, st', params[1..], args[1..], fuel).st);
    }
  }

  lemma {:induction false} BindLater(w: World, st: St, param: string, arg: Expr, fuel: nat)
    ensures Later(st, Bind(w, st, param, arg, fuel))
    decreases fuel, arg, 3
  {
    hide Eval, Stored, Begins;
    EvalLater(w, st, arg, fuel);
  }

  lemma {:induction false} RestoredLater(st: St, params: seq<string>, saved: seq<Option<Value>>)
    ensures Later(st, Restored(st, params, saved))
    decreases |params|
  {
    hide Stored, Freed, Begins;
    LaterSelf(st);
    if params != [] && saved != [] {
      var st' := GivenBack(st, params[0], saved[0]);
      RestoredLater(st', params[1..], saved[1..]);
    }
  }

  lemma {:induction false} ExecLater(w: World, st: St, last: Value, ss: seq<Stmt>, fuel: nat)
    ensures Later(st, Exec(w, st, last, ss, fuel).st)
    decreases fuel, ss
  {
    hide ExecOne, Later;
    LaterSelf(st);
    if ss != [] {
      var r := ExecOne(w, st, ss[0], fuel);
      ExecOneLater(w, st, ss[0], fuel);
      if !Stopped(r.st) {
        ExecLater(w, r.st, r.v, ss[1..], fuel);
        LaterOn(st, r.st, Exec(w, r.st, r.v, ss[1..], fuel).st);
      }
    }
  }

  lemma {:induction false} ExecOneLater(w: World, st: St, s: Stmt, fuel: nat)
    ensures Later(st, ExecOne(w, st, s, fuel).st)
    decreases fuel, s, 1
  {
    hide Eval, Exec, Loop, Each, Stored, Truthy, Parts, Begins;
    LaterSelf(st);
    if Stopped(st) { return; }
    match s
    case Return(Some(e)) => EvalLater(w, st, e, fuel);
    case ExprStmt(e) => EvalLater(w, st, e, fuel);
    case If(_, _, _) => IfLater(w, st, s, fuel);
    case While(_, _) => LoopLater(w, st, s, WHILE_GUARD, fuel);
    case For(_, over, _) =>
      var r := Eval(w, st, over, fuel);
      EvalLater(w, st, over, fuel);
      if Parts(r.v).Some? {
        EachLater(w, r.st, s, Parts(r.v).value, fuel);
        LaterOn(st, r.st, Each(w, r.st, s, Parts(r.v).value, fuel).st);
      }
    case Import(name) =>
      var file := if |name| <= MODULE_NAME_MAX then name else name[..MODULE_NAME_MAX];
      if file in w.modules && fuel > 0 {
        ExecLater(w, st, NoneV, w.modules[file], fuel - 1);
      }
    case Assign(name, e) => EvalLater(w, st, e, fuel);
    case _ =>
  }

  lemma {:induction false} IfLater(w: World, st: St, s: Stmt, fuel: nat)
    requires s.If? && !Stopped(st)
    ensures Later(st, ExecOne(w, st, s, fuel).st)
    decreases fuel, s, 0
  {
    hide Eval, Exec, Truthy, Later;
    var r := Eval(w, st, s.cond, fuel);
    EvalLater(w, st, s.cond, fuel);
    if Stopped(r.st) {
    } else if Truthy(r.v) {
      ExecLater(w, r.st, NoneV, s.thenPart, fuel);
      LaterOn(st, r.st, Exec(w, r.st, NoneV, s.thenPart, fuel).st);
    } else {
      match s.elsePart
      case NoElse =>
      case Elif(s') =>
        ExecOneLater(w, r.st, s', fuel);
        LaterOn(st, r.st, ExecOne(w, r.st, s', fuel).st);
      case ElseBlock(b) =>
        ExecLater(w, r.st, NoneV, b, fuel);
        LaterOn(st, r.st, Exec(w, r.st, NoneV, b, fuel).st);
    }
  }

  lemma {:induction false} LoopLater(w: World, st: St, s: Stmt, left: nat, fuel: nat)
    requires s.While?
    ensures Later(st, Loop(w, st, s, left, fuel).st)
    decreases fuel, s, 0, left
  {
    hide Eval, Exec, Truthy, Later;
    LaterSelf(st);
    if left > 0 {
      var c := Eval(w, st, s.cond, fuel);
      EvalLater(w, st, s.cond, fuel);
      if !Stopped(c.st) && Truthy(c.v) {
        var r := Exec(w, c.st, NoneV, s.body, fuel);
        ExecLater(w, c.st, NoneV, s.body, fuel);
        LaterOn(st, c.st, r.st);
        if !Stopped(r.st) {
          LoopLater(w, r.st, s, left - 1, fuel);
          LaterOn(st, r.st, Loop(w, r.st, s, left - 1, fuel).st);
        }
      }
    }
  }

  lemma {:induction false} EachLater(w: World, st: St, s: Stmt, vs: seq<Value>, fuel: nat)
    requires s.For?
    ensures Later(st, Each(w, st, s, vs, fuel).st)
    decreases fuel, s, 0, |vs|
  {
    hide Exec, Stored, Begins;
    LaterSelf(st);
    if vs != [] {
      var st' := Assigned(st, s.target, vs[0]);
      if !st'.err {
        var r := Exec(w, st', NoneV, s.body, fuel);
        ExecLater(w, st', NoneV, s.body, fuel);
        if !Stopped(r.st) {
          EachLater(w, r.st, s, vs[1..], fuel);
          LaterOn(st', r.st, Each(w, r.st, s, vs[1..], fuel).st);
        }
      }
    }
  }

  // ---- one after the other ----

  /**
   * The left operand is evaluated first, and the right one in what it leaves: what the left one asks is asked first,
   * and after an error in it nothing is.
   */
  lemma {:induction false} OperandsInOrder(w: World, st: St, e: Expr, l: Expr, r: Expr, fuel: nat)
    requires !Stopped(st) && ((e.Binop? && e.l == l && e.r == r) || (e.Compare? && e.l == l && e.r == r)
                              || (e.Index? && e.of == l && e.at == r))
    ensures var a, b := Eval(w, st, l, fuel).st, Eval(w, st, e, fuel).st;
      Later(st, a) && Later(a, b) && (a.err ==> b == a)
  {
    hide At, Arith, Compared, Item, Truthy, Begins;
    PairLater(w, st, e, l, r, fuel);
    LaterSelf(Eval(w, st, l, fuel).st);
  }

  /** Items are evaluated from the first one on, each in what those before it leave. */
  lemma {:induction false} ItemsInOrder(w: World, st: St, a: seq<Expr>, b: seq<Expr>, fuel: nat)
    ensures var r, all := EvalAll(w, st, a, fuel), EvalAll(w, st, a + b, fuel);
      && Later(r.st, all.st) && (r.st.err && a != [] ==> all.st == r.st)
      && (!r.st.err ==> all.st == EvalAll(w, r.st, b, fuel).st && all.vs == r.vs + EvalAll(w, r.st, b, fuel).vs)
    decreases |a|
  {
    hide Eval, EvalAll, Later;
    FirstItem(w, st, a, fuel);
    if a == [] {
      assert a + b == b;
      EvalAllLater(w, st, b, fuel);
    } else {
      var r := Eval(w, st, a[0], fuel);
      FirstItem(w, st, a + b, fuel);
      assert (a + b)[0] == a[0] && (a + b)[1..] == a[1..] + b;
      LaterSelf(r.st);
      if !r.st.err {
        ItemsInOrder(w, r.st, a[1..], b, fuel);
        FirstItem(w, r.st, a[1..], fuel);
      }
    }
  }

  lemma FirstItem(w: World, st: St, es: seq<Expr>, fuel: nat)
    ensures EvalAll(w, st, es, fuel) ==
      if es == [] then Outs(st, [])
      else
        var r := Eval(w, st, es[0], fuel);
        if r.st.err then Outs(r.st, [])
        else Outs(EvalAll(w, r.st, es[1..], fuel).st, [r.v] + EvalAll(w, r.st, es[1..], fuel).vs)
  {
    hide Eval;
  }

  /** Arguments are evaluated from the first one on, each with the parameters before it bound. */
  lemma {:induction false} ArgumentsInOrder(w: World, st: St, params: seq<string>, args: seq<Expr>, i: nat, fuel: nat)
    requires i <= |params| == |args|
    requires !Passed(w, st, params, args, fuel).st.err
    ensures Later(Before(w, st, params, args, i, fuel), Passed(w, st, params, args, fuel).st)
    decreases i
  {
    hide Bind, At, Later;
    if i == 0 {
      PassedLater(w, st, params, args, fuel);
    } else {
      ArgumentsInOrder(w, Bind(w, st, params[0], args[0], fuel), params[1..], args[1..], i - 1, fuel);
    }
  }
}
