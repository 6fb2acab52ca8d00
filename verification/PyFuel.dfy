/**
 * The bound on the depth of calls is only a bound: a run that ends without an error is the same with any larger bound.
 */
module PyFuel {
  import opened Wrappers
  import opened PyTokens
  import opened PyGrammar
  import opened PyEnv
  import opened PyEval

  lemma {:induction false} EvalMore(w: World, st: St, e: Expr, fuel: nat, more: nat)
    requires fuel <= more && !Eval(w, st, e, fuel).st.err
    ensures Eval(w, st, e, more) == Eval(w, st, e, fuel)
    decreases fuel, e, 2
  {
    hide At, Arith, Compared, Item, Signed, Invoke, Builtin, EvalAll, Truthy;
    if Stopped(st) { return; }
    match e
    case List(items) => EvalAllMore(w, st, items, fuel, more);
    case Index(x, y) =>
      EvalMore(w, st, x, fuel, more);
      EvalMore(w, Eval(w, st, x, fuel).st, y, fuel, more);
    case Unary(op, x) => EvalMore(w, st, x, fuel, more);
    case Binop(op, x, y) => BinopMore(w, st, e, fuel, more);
    case Compare(op, x, y) =>
      EvalMore(w, st, x, fuel, more);
      if !Stopped(Eval(w, st, x, fuel).st) {
        EvalMore(w, Eval(w, st, x, fuel).st, y, fuel, more);
      }
    case Call(f, args) =>
      var fn := At(st.slots, f);
      if fn.Some? && fn.value.FuncV? {
        InvokeMore(w, st, fn.value.params, fn.value.body, args, fuel, more);
      } else {
        BuiltinMore(w, st, f, |args|, [], args, fuel, more);
      }
    case _ =>
  }

  lemma {:induction false} BinopMore(w: World, st: St, e: Expr, fuel: nat, more: nat)
    requires fuel <= more && e.Binop? && !Stopped(st) && !Eval(w, st, e, fuel).st.err
    ensures Eval(w, st, e, more) == Eval(w, st, e, fuel)
    decreases fuel, e, 1
  {
    hide At, Arith, Compared, Item, Signed, Invoke, Builtin, EvalAll, Truthy;
    var a := Eval(w, st, e.l, fuel);
    EvalMore(w, st, e.l, fuel, more);
    if !Stopped(a.st) && (e.op != AND || Truthy(a.v)) && (e.op != OR || !Truthy(a.v)) {
      EvalMore(w, a.st, e.r, fuel, more);
    }
  }

  lemma {:induction false} EvalAllMore(w: World, st: St, es: seq<Expr>, fuel: nat, more: nat)
    requires fuel <= more && !EvalAll(w, st, es, fuel).st.err
    ensures EvalAll(w, st, es, more) == EvalAll(w, st, es, fuel)
    decreases fuel, es
  {
    hide Eval;
    if es != [] {
      EvalMore(w, st, es[0], fuel, more);
      EvalAllMore(w, Eval(w, st, es[0], fuel).st, es[1..], fuel, more);
    }
  }

  lemma {:induction false} BuiltinMore(w: World, st: St, name: string, given: nat, values: seq<Value>, args: seq<Expr>,
                                       fuel: nat, more: nat)
    requires fuel <= more && !Builtin(w, st, name, given, values, args, fuel).st.err
    ensures Builtin(w, st, name, given, values, args, more) == Builtin(w, st, name, given, values, args, fuel)
    decreases fuel, args
  {
    hide Eval;
    var ask := Ask(name, given, values);
    if w.answer(st.asked, ask).Next? && args != [] {
      var st' := st.(asked := st.asked + [ask]);
      var r := Eval(w, st', args[0], fuel);
      EvalMore(w, st', args[0], fuel, more);
      BuiltinMore(w, r.st, name, given, values + [r.v], args[1..], fuel, more);
    }
  }

  /** Giving bindings back clears no error. */
  lemma {:induction false} RestoredErr(st: St, params: seq<string>, saved: seq<Option<Value>>)
    requires st.err
    ensures Restored(st, params, saved).err
    decreases |params|
  {
    hide Stored;
    if params != [] && saved != [] {
      RestoredErr(GivenBack(st, params[0], saved[0]), params[1..], saved[1..]);
    }
  }

  lemma {:induction false} InvokeMore(w: World, st: St, params: seq<string>, body: seq<Stmt>, args: seq<Expr>,
                                      fuel: nat, more: nat)
    requires fuel <= more && !Invoke(w, st, params, body, args, fuel).st.err
    ensures Invoke(w, st, params, body, args, more) == Invoke(w, st, params, body, args, fuel)
    decreases fuel, args, 1
  {
    hide Exec, Passed, Restored;
    var p := Passed(w, st, params, args, fuel);
    PassedMore(w, st, params, args, fuel, more);
    var entry := p.st.(returning := false, retval := NoneV);
    var r := Exec(w, entry, NoneV, body, fuel - 1);
    if r.st.err {
      RestoredErr(r.st.(returning := false), params, p.saved);
    }
    ExecMore(w, entry, NoneV, body, fuel - 1, more - 1);
  }

  lemma {:induction false} PassedMore(w: World, st: St, params: seq<string>, args: seq<Expr>, fuel: nat, more: nat)
    requires fuel <= more && |params| == |args| && !Passed(w, st, params, args, fuel).st.err
    ensures Passed(w, st, params, args, more) == Passed(w, st, params, args, fuel)
    decreases fuel, args, 0
  {
    hide Eval, Stored, At;
    if params != [] {
      EvalMore(w, st, args[0], fuel, more);
      PassedMore(w, Bind(w, st, params[0], args[0], fuel), params[1..], args[1..], fuel, more);
    }
  }

  /** The same for statements, and so for whole programs. */
  lemma {:induction false} ExecMore(w: World, st: St, last: Value, ss: seq<Stmt>, fuel: nat, more: nat)
    requires fuel <= more && !Exec(w, st, last, ss, fuel).st.err
    ensures Exec(w, st, last, ss, more) == Exec(w, st, last, ss, fuel)
    decreases fuel, ss
  {
    hide ExecOne;
    if ss != [] {
      var r := ExecOne(w, st, ss[0], fuel);
      ExecOneMore(w, st, ss[0], fuel, more);
      if !Stopped(r.st) {
        ExecMore(w, r.st, r.v, ss[1..], fuel, more);
      }
    }
  }

  lemma {:induction false} ExecOneMore(w: World, st: St, s: Stmt, fuel: nat, more: nat)
    requires fuel <= more && !ExecOne(w, st, s, fuel).st.err
    ensures ExecOne(w, st, s, more) == ExecOne(w, st, s, fuel)
    decreases fuel, s, 1
  {
    hide Eval, Exec, Loop, Each, Stored, Truthy, Parts;
    if Stopped(st) { return; }
    match s
    case Return(Some(e)) => EvalMore(w, st, e, fuel, more);
    case ExprStmt(e) => EvalMore(w, st, e, fuel, more);
    case Assign(_, e) => EvalMore(w, st, e, fuel, more);
    case If(_, _, _) => IfMore(w, st, s, fuel, more);
    case While(_, _) => LoopMore(w, st, s, WHILE_GUARD, fuel, more);
    case For(_, over, _) =>
      var r := Eval(w, st, over, fuel);
      EvalMore(w, st, over, fuel, more);
      if !Stopped(r.st) {
        EachMore(w, r.st, s, Parts(r.v).value, fuel, more);
      }
    case Import(name) =>
      var file := if |name| <= MODULE_NAME_MAX then name else name[..MODULE_NAME_MAX];
      ExecMore(w, st, NoneV, w.modules[file], fuel - 1, more - 1);
    case _ =>
  }

  lemma {:induction false} IfMore(w: World, st: St, s: Stmt, fuel: nat, more: nat)
    requires fuel <= more && s.If? && !Stopped(st) && !ExecOne(w, st, s, fuel).st.err
    ensures ExecOne(w, st, s, more) == ExecOne(w, st, s, fuel)
    decreases fuel, s, 0
  {
    hide Eval, Exec, Truthy;
    var r := Eval(w, st, s.cond, fuel);
    EvalMore(w, st, s.cond, fuel, more);
    if Stopped(r.st) {
    } else if Truthy(r.v) {
      ExecMore(w, r.st, NoneV, s.thenPart, fuel, more);
    } else {
      match s.elsePart
      case NoElse =>
      case Elif(s') => ExecOneMore(w, r.st, s', fuel, more);
      case ElseBlock(b) => ExecMore(w, r.st, NoneV, b, fuel, more);
    }
  }

  lemma {:induction false} LoopMore(w: World, st: St, s: Stmt, left: nat, fuel: nat, more: nat)
    requires fuel <= more && s.While? && !Loop(w, st, s, left, fuel).st.err
    ensures Loop(w, st, s, left, more) == Loop(w, st, s, left, fuel)
    decreases fuel, s, 0, left
  {
    hide Eval, Exec, Truthy;
    if left > 0 {
      var c := Eval(w, st, s.cond, fuel);
      EvalMore(w, st, s.cond, fuel, more);
      if !Stopped(c.st) && Truthy(c.v) {
        var r := Exec(w, c.st, NoneV, s.body, fuel);
        ExecMore(w, c.st, NoneV, s.body, fuel, more);
        if !Stopped(r.st) {
          LoopMore(w, r.st, s, left - 1, fuel, more);
        }
      }
    }
  }

  lemma {:induction false} EachMore(w: World, st: St, s: Stmt, vs: seq<Value>, fuel: nat, more: nat)
    requires fuel <= more && s.For? && !Each(w, st, s, vs, fuel).st.err
    ensures Each(w, st, s, vs, more) == Each(w, st, s, vs, fuel)
    decreases fuel, s, 0, |vs|
  {
    hide Exec, Assigned;
    if vs != [] {
      var st' := Assigned(st, s.target, vs[0]);
      var r := Exec(w, st', NoneV, s.body, fuel);
      ExecMore(w, st', NoneV, s.body, fuel, more);
      if !Stopped(r.st) {
        EachMore(w, r.st, s, vs[1..], fuel, more);
      }
    }
  }
}
