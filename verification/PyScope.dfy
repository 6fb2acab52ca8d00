/**
 * What evaluation keeps: names stay bound, returns stay inside calls, and calls give parameters their bindings back.
 */
module PyScope {
  import opened Wrappers
  import opened PyGrammar
  import opened PyEnv
  import opened PyEval

  /** Every bound name still is, and there is a return on its way only if there was one. */
  ghost predicate Tame(st: St, st': St) { Keeps(st.slots, st'.slots) && (!st.returning ==> !st'.returning) }

  lemma TameOn(a: St, b: St, c: St)
    requires Tame(a, b) && Tame(b, c)
    ensures Tame(a, c)
  {
    KeepsOn(a.slots, b.slots, c.slots);
  }

  lemma KeepsSelf(sl: seq<Slot>)
    requires Env(sl)
    ensures Keeps(sl, sl)
  {}

  lemma KeepsEnv(a: seq<Slot>, b: seq<Slot>)
    requires Keeps(a, b)
    ensures Env(b)
  {}

  lemma AssignedKeeps(st: St, name: string, v: Value)
    requires Env(st.slots)
    ensures var st' := Assigned(st, name, v);
      && Keeps(st.slots, st'.slots) && st' == st.(slots := st'.slots, err := st'.err)
      && (st.err ==> st'.err)
      && ((st'.err && st'.slots == st.slots) || Bound(st.slots, st'.slots, name, Some(v)))
  {
    StoredBinds(st.slots, name, v);
  }

  // ---- names stay bound, and no expression ends with a return on its way ----

  lemma {:induction false} EvalKeeps(w: World, st: St, e: Expr, fuel: nat)
    requires Env(st.slots)
    ensures Tame(st, Eval(w, st, e, fuel).st)
    decreases fuel, e, 1
  {
    hide Env, Keeps, At, Arith, Compared, Item, Signed, Invoke, Builtin, EvalAll;
    KeepsSelf(st.slots);
    if Stopped(st) { return; }
    match e
    case List(items) => EvalAllKeeps(w, st, items, fuel);
    case Index(x, y) => PairKeeps(w, st, e, x, y, fuel);
    case Unary(op, x) => EvalKeeps(w, st, x, fuel);
    case Binop(op, x, y) => PairKeeps(w, st, e, x, y, fuel);
    case Compare(op, x, y) => PairKeeps(w, st, e, x, y, fuel);
    case Call(f, args) =>
      var fn := At(st.slots, f);
      if fn.Some? && fn.value.FuncV? {
        CalledKeeps(w, st, fn.value.params, fn.value.body, args, fuel);
      } else {
        BuiltinKeeps(w, st, f, |args|, [], args, fuel);
      }
    case _ =>
  }

  lemma {:induction false} PairKeeps(w: World, st: St, e: Expr, x: Expr, y: Expr, fuel: nat)
    requires Env(st.slots) && x < e && y < e
    ensures var a := Eval(w, st, x, fuel).st;
      Tame(st, a) && Tame(st, Eval(w, a, y, fuel).st)
    decreases fuel, e, 0
  {
    hide Eval, Env, Keeps;
    var a := Eval(w, st, x, fuel).st;
    EvalKeeps(w, st, x, fuel);
    KeepsEnv(st.slots, a.slots);
    EvalKeeps(w, a, y, fuel);
    TameOn(st, a, Eval(w, a, y, fuel).st);
  }

  lemma {:induction false} EvalAllKeeps(w: World, st: St, es: seq<Expr>, fuel: nat)
    requires Env(st.slots)
    ensures Tame(st, EvalAll(w, st, es, fuel).st)
    decreases fuel, es
  {
    hide Eval, Env, Keeps;
    KeepsSelf(st.slots);
    if es != [] {
      var r := Eval(w, st, es[0], fuel);
      EvalKeeps(w, st, es[0], fuel);
      KeepsEnv(st.slots, r.st.slots);
      EvalAllKeeps(w, r.st, es[1..], fuel);
      TameOn(st, r.st, EvalAll(w, r.st, es[1..], fuel).st);
    }
  }

  lemma {:induction false} BuiltinKeeps(w: World, st: St, name: string, given: nat, values: seq<Value>, args: seq<Expr>,
                                        fuel: nat)
    requires Env(st.slots)
    ensures Tame(st, Builtin(w, st, name, given, values, args, fuel).st)
    decreases fuel, args
  {
    hide Eval, Env, Keeps;
    KeepsSelf(st.slots);
    var ask := Ask(name, given, values);
    var st' := st.(asked := st.asked + [ask]);
    if w.answer(st.asked, ask).Next? && args != [] {
      var r := Eval(w, st', args[0], fuel);
      EvalKeeps(w, st', args[0], fuel);
      KeepsEnv(st'.slots, r.st.slots);
      BuiltinKeeps(w, r.st, name, given, values + [r.v], args[1..], fuel);
      TameOn(st, r.st, Builtin(w, r.st, name, given, values + [r.v], args[1..], fuel).st);
    }
  }

  /** A call ends with no return on its way, and unbinds a parameter only if it was not bound before. */
  lemma {:induction false} CalledKeeps(w: World, st: St, params: seq<string>, body: seq<Stmt>, args: seq<Expr>,
                                       fuel: nat)
    requires Env(st.slots)
    ensures Tame(st, Invoke(w, st, params, body, args, fuel).st)
    decreases fuel, args, 1
  {
    hide Exec, Passed, Restored, Env, Keeps, At;
    KeepsSelf(st.slots);
    if |params| == |args| <= FUNC_ARGS && fuel > 0 {
      var p := Passed(w, st, params, args, fuel);
      PassedKeeps(w, st, params, args, fuel);
      if !p.st.err {
        KeepsEnv(st.slots, p.st.slots);
        var entry := p.st.(returning := false, retval := NoneV);
        var r := Exec(w, entry, NoneV, body, fuel - 1);
        ExecKeeps(w, entry, NoneV, body, fuel - 1);
        KeepsOn(st.slots, p.st.slots, r.st.slots);
        RestoredKeeps(st.slots, r.st.(returning := false), params, p.saved);
      }
    }
  }

  lemma {:induction false} PassedKeeps(w: World, st: St, params: seq<string>, args: seq<Expr>, fuel: nat)
    requires Env(st.slots) && |params| == |args|
    ensures var p := Passed(w, st, params, args, fuel);
      && Tame(st, p.st)
      && forall i :: 0 <= i < |p.saved| && p.saved[i].None? ==> At(st.slots, params[i]).None?
    decreases fuel, args, 0
  {
    hide Bind, Env, At;
    KeepsSelf(st.slots);
    if params != [] {
      var st' := Bind(w, st, params[0], args[0], fuel);
      BindKeeps(w, st, params[0], args[0], fuel);
      PassedKeeps(w, st', params[1..], args[1..], fuel);
      var rest := Passed(w, st', params[1..], args[1..], fuel);
      TameOn(st, st', rest.st);
    }
  }

  lemma {:induction false} BindKeeps(w: World, st: St, param: string, arg: Expr, fuel: nat)
    requires Env(st.slots)
    ensures var st' := Bind(w, st, param, arg, fuel);
      Tame(st, st') && Env(st'.slots) && (!st'.err ==> At(st'.slots, param).Some?)
    decreases fuel, arg, 2
  {
    hide Eval, Assigned, Env, At;
    var r := Eval(w, st, arg, fuel);
    EvalKeeps(w, st, arg, fuel);
    AssignedKeeps(r.st, param, r.v);
    KeepsOn(st.slots, r.st.slots, Assigned(r.st, param, r.v).slots);
  }

  lemma GivenBackKeeps(before: seq<Slot>, st: St, name: string, v: Option<Value>)
    requires Keeps(before, st.slots) && (v.None? ==> At(before, name).None?)
    ensures Keeps(before, GivenBack(st, name, v).slots) && GivenBack(st, name, v).returning == st.returning
  {
    hide At, Env, Assigned;
    if v.Some? {
      AssignedKeeps(st, name, v.value);
    } else {
      FreedUnbinds(st.slots, name);
    }
  }

  lemma {:induction false} RestoredKeeps(before: seq<Slot>, st: St, params: seq<string>, saved: seq<Option<Value>>)
    requires Keeps(before, st.slots) && |saved| <= |params|
    requires forall i :: 0 <= i < |saved| && saved[i].None? ==> At(before, params[i]).None?
    ensures Keeps(before, Restored(st, params, saved).slots) && Restored(st, params, saved).returning == st.returning
    decreases |params|
  {
    hide At, Keeps, GivenBack;
    if params != [] && saved != [] {
      GivenBackKeeps(before, st, params[0], saved[0]);
      RestoredKeeps(before, GivenBack(st, params[0], saved[0]), params[1..], saved[1..]);
    }
  }

  lemma {:induction false} ExecKeeps(w: World, st: St, last: Value, ss: seq<Stmt>, fuel: nat)
    requires Env(st.slots)
    ensures Keeps(st.slots, Exec(w, st, last, ss, fuel).st.slots)
    decreases fuel, ss
  {
    hide ExecOne, Env, Keeps;
    KeepsSelf(st.slots);
    if ss != [] {
      var r := ExecOne(w, st, ss[0], fuel);
      ExecOneKeeps(w, st, ss[0], fuel);
      KeepsEnv(st.slots, r.st.slots);
      if !Stopped(r.st) {
        ExecKeeps(w, r.st, r.v, ss[1..], fuel);
        KeepsOn(st.slots, r.st.slots, Exec(w, r.st, r.v, ss[1..], fuel).st.slots);
      }
    }
  }

  lemma {:induction false} ExecOneKeeps(w: World, st: St, s: Stmt, fuel: nat)
    requires Env(st.slots)
    ensures Keeps(st.slots, ExecOne(w, st, s, fuel).st.slots)
    decreases fuel, s, 1
  {
    hide Eval, Exec, Loop, Each, Env, Keeps, Assigned, Truthy, Parts;
    KeepsSelf(st.slots);
    if Stopped(st) { return; }
    match s
    case Return(Some(e)) => EvalKeeps(w, st, e, fuel);
    case ExprStmt(e) => EvalKeeps(w, st, e, fuel);
    case If(_, _, _) => IfKeeps(w, st, s, fuel);
    case While(_, _) => LoopKeeps(w, st, s, WHILE_GUARD, fuel);
    case For(_, over, _) =>
      var r := Eval(w, st, over, fuel);
      EvalKeeps(w, st, over, fuel);
      KeepsEnv(st.slots, r.st.slots);
      if Parts(r.v).Some? {
        EachKeeps(w, r.st, s, Parts(r.v).value, fuel);
        KeepsOn(st.slots, r.st.slots, Each(w, r.st, s, Parts(r.v).value, fuel).st.slots);
      }
    case Def(name, params, body) =>
      AssignedKeeps(st.(made := st.made + 1), name, FuncV(st.made, params, body));
    case Import(name) =>
      var file := if |name| <= MODULE_NAME_MAX then name else name[..MODULE_NAME_MAX];
      if file in w.modules && fuel > 0 {
        ExecKeeps(w, st, NoneV, w.modules[file], fuel - 1);
      }
    case Assign(name, e) =>
      var r := Eval(w, st, e, fuel);
      EvalKeeps(w, st, e, fuel);
      KeepsEnv(st.slots, r.st.slots);
      AssignedKeeps(r.st, name, r.v);
      KeepsOn(st.slots, r.st.slots, Assigned(r.st, name, r.v).slots);
    case _ =>
  }

  lemma {:induction false} IfKeeps(w: World, st: St, s: Stmt, fuel: nat)
    requires Env(st.slots) && s.If? && !Stopped(st)
    ensures Keeps(st.slots, ExecOne(w, st, s, fuel).st.slots)
    decreases fuel, s, 0
  {
    hide Eval, Exec, Env, Keeps, Truthy;
    var r := Eval(w, st, s.cond, fuel);
    EvalKeeps(w, st, s.cond, fuel);
    KeepsEnv(st.slots, r.st.slots);
    if Stopped(r.st) {
    } else if Truthy(r.v) {
      ExecKeeps(w, r.st, NoneV, s.thenPart, fuel);
      KeepsOn(st.slots, r.st.slots, Exec(w, r.st, NoneV, s.thenPart, fuel).st.slots);
    } else {
      match s.elsePart
      case NoElse =>
      case Elif(s') =>
        ExecOneKeeps(w, r.st, s', fuel);
        KeepsOn(st.slots, r.st.slots, ExecOne(w, r.st, s', fuel).st.slots);
      case ElseBlock(b) =>
        ExecKeeps(w, r.st, NoneV, b, fuel);
        KeepsOn(st.slots, r.st.slots, Exec(w, r.st, NoneV, b, fuel).st.slots);
    }
  }

  lemma {:induction false} LoopKeeps(w: World, st: St, s: Stmt, left: nat, fuel: nat)
    requires Env(st.slots) && s.While?
    ensures Keeps(st.slots, Loop(w, st, s, left, fuel).st.slots)
    decreases fuel, s, 0, left
  {
    hide Eval, Exec, Env, Keeps, Truthy;
    KeepsSelf(st.slots);
    if left > 0 {
      var c := Eval(w, st, s.cond, fuel);
      EvalKeeps(w, st, s.cond, fuel);
      KeepsEnv(st.slots, c.st.slots);
      if !Stopped(c.st) && Truthy(c.v) {
        var r := Exec(w, c.st, NoneV, s.body, fuel);
        ExecKeeps(w, c.st, NoneV, s.body, fuel);
        KeepsOn(st.slots, c.st.slots, r.st.slots);
        KeepsEnv(st.slots, r.st.slots);
        if !Stopped(r.st) {
          LoopKeeps(w, r.st, s, left - 1, fuel);
          KeepsOn(st.slots, r.st.slots, Loop(w, r.st, s, left - 1, fuel).st.slots);
        }
      }
    }
  }

  lemma {:induction false} EachKeeps(w: World, st: St, s: Stmt, vs: seq<Value>, fuel: nat)
    requires Env(st.slots) && s.For?
    ensures Keeps(st.slots, Each(w, st, s, vs, fuel).st.slots)
    decreases fuel, s, 0, |vs|
  {
    hide Exec, Env, Keeps, Assigned;
    KeepsSelf(st.slots);
    if vs != [] {
      var st' := Assigned(st, s.target, vs[0]);
      AssignedKeeps(st, s.target, vs[0]);
      KeepsEnv(st.slots, st'.slots);
      if !st'.err {
        var r := Exec(w, st', NoneV, s.body, fuel);
        ExecKeeps(w, st', NoneV, s.body, fuel);
        KeepsOn(st.slots, st'.slots, r.st.slots);
        KeepsEnv(st.slots, r.st.slots);
        if !Stopped(r.st) {
          EachKeeps(w, r.st, s, vs[1..], fuel);
          KeepsOn(st.slots, r.st.slots, Each(w, r.st, s, vs[1..], fuel).st.slots);
        }
      }
    }
  }

  // ---- sequences of statements ----

  /** Statements take effect in order, up to an error or a return; what comes after has none. */
  lemma {:induction false} ExecSplit(w: World, st: St, last: Value, a: seq<Stmt>, b: seq<Stmt>, fuel: nat)
    requires !Stopped(st)
    ensures var r := Exec(w, st, last, a, fuel);
      Exec(w, st, last, a + b, fuel) == if Stopped(r.st) then r else Exec(w, r.st, r.v, b, fuel)
    decreases |a|
  {
    hide ExecOne;
    if a == [] {
      assert a + b == b;
    } else {
      var r := ExecOne(w, st, a[0], fuel);
      assert (a + b)[0] == a[0] && (a + b)[1..] == a[1..] + b;
      if !Stopped(r.st) {
        ExecSplit(w, r.st, r.v, a[1..], b, fuel);
      }
    }
  }

  // ---- calls give parameters their bindings back ----

  ghost predicate Distinct(names: seq<string>) { forall i, j :: 0 <= i < j < |names| ==> names[i] != names[j] }

  /** The state just before an argument is evaluated. */
  function Before(w: World, st: St, params: seq<string>, args: seq<Expr>, i: nat, fuel: nat): St
    requires i <= |params| == |args|
    decreases i
  {
    if i == 0 then st else Before(w, Bind(w, st, params[0], args[0], fuel), params[1..], args[1..], i - 1, fuel)
  }

  /**
   * What is put aside is what each name is bound to just before its own argument; afterwards every parameter is bound.
   */
  lemma {:induction false} PassedSaves(w: World, st: St, params: seq<string>, args: seq<Expr>, fuel: nat)
    requires Env(st.slots) && |params| == |args| && !Passed(w, st, params, args, fuel).st.err
    ensures var p := Passed(w, st, params, args, fuel);
      && Env(p.st.slots)
      && (forall i :: 0 <= i < |params| ==> p.saved[i] == At(Before(w, st, params, args, i, fuel).slots, params[i]))
      && (forall i :: 0 <= i < |params| ==> At(p.st.slots, params[i]).Some?)
    decreases |params|
  {
    hide Bind, Env, At;
    if params != [] {
      var st' := Bind(w, st, params[0], args[0], fuel);
      var p := Passed(w, st, params, args, fuel);
      BindKeeps(w, st, params[0], args[0], fuel);
      PassedSaves(w, st', params[1..], args[1..], fuel);
      PassedKeeps(w, st', params[1..], args[1..], fuel);
      forall i | 0 <= i < |params|
        ensures p.saved[i] == At(Before(w, st, params, args, i, fuel).slots, params[i])
        ensures At(p.st.slots, params[i]).Some?
      {
        if i > 0 {
          assert params[i] == params[1..][i - 1];
        }
      }
    }
  }

  /** Where a name last occurs. */
  function LastOf(names: seq<string>, name: string): (i: nat)
    requires name in names
    ensures i < |names| && names[i] == name && forall j :: i < j < |names| ==> names[j] != name
  {
    if name in names[1..] then
      var k := LastOf(names[1..], name);
      assert forall j :: k + 1 < j < |names| ==> names[j] == names[1..][j - 1];
      k + 1
    else
      assert forall j :: 0 < j < |names| ==> names[j] == names[1..][j - 1];
      0
  }

  function FreeSlots(sl: seq<Slot>): set<nat> { set i: nat | i < |sl| && !sl[i].used }

  function Unbound(sl: seq<Slot>, names: seq<string>): set<string> { set n | n in names && At(sl, n).None? }

  /**
   * Giving a binding back works while there is a free slot for every name that waits for one, and leaves one for every
   * other.
   */
  lemma GivenBackBinds(st: St, names: seq<string>, v: Option<Value>)
    requires Env(st.slots) && names != [] && |names[0]| < NAME_MAX
    requires |Unbound(st.slots, names)| <= |FreeSlots(st.slots)|
    ensures var st' := GivenBack(st, names[0], v);
      && Bound(st.slots, st'.slots, names[0], v) && |Unbound(st'.slots, names[1..])| <= |FreeSlots(st'.slots)|
  {
    hide Bound, Env, At, Stored, Freed;
    var n, sl := names[0], st.slots;
    var sl' := GivenBack(st, n, v).slots;
    if v.Some? {
      StoredBinds(sl, n, v.value);
      if At(sl, n).None? {
        assert n in Unbound(sl, names);
        FreeOne(sl);
      }
      StoredSlots(sl, n, v.value);
    } else {
      FreedUnbinds(sl, n);
      FreedSlots(sl, n);
    }
    FewerUnbound(sl, sl', names, v);
  }

  lemma FreeOne(sl: seq<Slot>)
    requires |FreeSlots(sl)| > 0
    ensures exists i :: 0 <= i < |sl| && !sl[i].used
  {
    var i :| i in FreeSlots(sl);
  }

  /** Binding a name that has a slot takes none; binding another takes one. */
  lemma StoredSlots(sl: seq<Slot>, name: string, v: Value)
    requires Env(sl) && Stored(sl, name, v).Some?
    ensures |FreeSlots(Stored(sl, name, v).value)| == |FreeSlots(sl)| - if At(sl, name).Some? then 0 else 1
  {
    hide Env;
    var sl' := Stored(sl, name, v).value;
    if At(sl, name).Some? {
      assert FreeSlots(sl') == FreeSlots(sl);
    } else {
      assert FirstFree(sl) in FreeSlots(sl);
      assert FreeSlots(sl') == FreeSlots(sl) - {FirstFree(sl)};
    }
  }

  /** Giving up a name that has a slot frees it. */
  lemma FreedSlots(sl: seq<Slot>, name: string)
    requires Env(sl)
    ensures |FreeSlots(Freed(sl, name))| == |FreeSlots(sl)| + if At(sl, name).Some? then 1 else 0
  {
    var i := SlotOf(sl, name);
    if i < |sl| {
      forall j | 0 <= j < |sl| ensures Holds(sl[j], name) <==> j == i {
        if Holds(sl[j], name) {
          AtSlot(sl, j, name);
        }
      }
      assert FreeSlots(Freed(sl, name)) == FreeSlots(sl) + {i};
    } else {
      assert FreeSlots(Freed(sl, name)) == FreeSlots(sl);
    }
  }

  lemma FewerUnbound(sl: seq<Slot>, sl': seq<Slot>, names: seq<string>, v: Option<Value>)
    requires names != [] && Bound(sl, sl', names[0], v)
    ensures |Unbound(sl', names[1..])| <=
      |Unbound(sl, names)| + if v.Some? then (if At(sl, names[0]).None? then -1 else 0) else if At(sl, names[0]).None?
        then 0 else 1
  {
    hide At, Env;
    var n, u, u' := names[0], Unbound(sl, names), Unbound(sl', names[1..]);
    if v.Some? {
      assert u' <= u - {n};
      Within(u', u - {n});
    } else {
      assert u' <= u + {n};
      Within(u', u + {n});
    }
  }

  lemma {:induction false} Within(a: set<string>, b: set<string>)
    requires a <= b
    ensures |a| <= |b|
  {
    if a != {} {
      var x :| x in a;
      Within(a - {x}, b - {x});
    }
  }

  /**
   * Restoring cannot fail, not even in a full environment, and touches no other name. Of a name that occurs more than
   * once the last binding put aside stays.
   */
  lemma {:induction false} RestoredGives(st: St, params: seq<string>, saved: seq<Option<Value>>)
    requires Env(st.slots) && |params| == |saved| && forall i :: 0 <= i < |params| ==> |params[i]| < NAME_MAX
    requires |Unbound(st.slots, params)| <= |FreeSlots(st.slots)|
    ensures var st' := Restored(st, params, saved);
      && (forall n :: n in params ==> At(st'.slots, n) == saved[LastOf(params, n)])
      && (forall n :: n !in params ==> At(st'.slots, n) == At(st.slots, n))
    decreases |params|
  {
    hide At, Env, GivenBack, Unbound, FreeSlots;
    if params != [] {
      var st1 := GivenBack(st, params[0], saved[0]);
      GivenBackBinds(st, params, saved[0]);
      RestoredGives(st1, params[1..], saved[1..]);
      var st' := Restored(st, params, saved);
      forall n | n in params ensures At(st'.slots, n) == saved[LastOf(params, n)] {
        if n !in params[1..] {
          assert n == params[0];
        }
      }
    }
  }

  /** Names that are bound wait for no slot, and fit. */
  lemma AllBound(sl: seq<Slot>, names: seq<string>)
    requires Env(sl) && forall i :: 0 <= i < |names| ==> At(sl, names[i]).Some?
    ensures Unbound(sl, names) == {} && forall i :: 0 <= i < |names| ==> |names[i]| < NAME_MAX
  {
    forall i | 0 <= i < |names| ensures |names[i]| < NAME_MAX {
      BoundShort(sl, names[i]);
    }
    hide At;
  }

  /** How the body of a function leaves the state. */
  function AfterBody(w: World, st: St, params: seq<string>, body: seq<Stmt>, args: seq<Expr>, fuel: nat): St
    requires |params| == |args| && fuel > 0
  {
    Exec(w, Passed(w, st, params, args, fuel).st.(returning := false, retval := NoneV), NoneV, body, fuel - 1).st
  }

  /**
   * Dynamic scope: after a call each parameter's name is bound, or not bound, exactly as it was just before the
   * argument of its last occurrence was evaluated, whatever the body does, calls of the same function and errors
   * included. All other names are as the body left them.
   */
  lemma CallRestores(w: World, st: St, params: seq<string>, body: seq<Stmt>, args: seq<Expr>, fuel: nat)
    requires Env(st.slots) && |params| == |args| <= FUNC_ARGS && fuel > 0
    requires !Passed(w, st, params, args, fuel).st.err
    ensures var st' := Invoke(w, st, params, body, args, fuel).st;
      && (forall n :: n in params ==>
         At(st'.slots, n) == At(Before(w, st, params, args, LastOf(params, n), fuel).slots, n))
      && (forall n :: n !in params ==> At(st'.slots, n) == At(AfterBody(w, st, params, body, args, fuel).slots, n))
  {
    hide Exec, Passed, Restored, At, Env, Before, Unbound, FreeSlots;
    var p := Passed(w, st, params, args, fuel);
    PassedSaves(w, st, params, args, fuel);
    var entry := p.st.(returning := false, retval := NoneV);
    var r := Exec(w, entry, NoneV, body, fuel - 1);
    ExecKeeps(w, entry, NoneV, body, fuel - 1);
    AllBound(r.st.slots, params);
    RestoredGives(r.st.(returning := false), params, p.saved);
  }

  /**
   * A parameter's name is bound as it was just before this argument was evaluated if and only if it was bound so before
   * the argument of its last occurrence; so always if the parameters are distinct.
   */
  lemma CallRestoresAt(w: World, st: St, params: seq<string>, body: seq<Stmt>, args: seq<Expr>, i: nat, fuel: nat)
    requires Env(st.slots) && |params| == |args| <= FUNC_ARGS && fuel > 0 && i < |params|
    requires !Passed(w, st, params, args, fuel).st.err
    ensures var n, was := params[i], At(Before(w, st, params, args, i, fuel).slots, params[i]);
      && (At(Invoke(w, st, params, body, args, fuel).st.slots, n) == was <==>
          At(Before(w, st, params, args, LastOf(params, n), fuel).slots, n) == was)
      && (Distinct(params) ==> At(Invoke(w, st, params, body, args, fuel).st.slots, n) == was)
  {
    hide Invoke, Passed, At, Env, Before;
    CallRestores(w, st, params, body, args, fuel);
  }

  // ---- arguments without calls ----

  predicate CallFree(e: Expr) {
    match e
    case Call(_, _) => false
    case List(items) => forall x :: x in items ==> CallFree(x)
    case Index(a, b) => CallFree(a) && CallFree(b)
    case Unary(_, a) => CallFree(a)
    case Binop(_, a, b) => CallFree(a) && CallFree(b)
    case Compare(_, a, b) => CallFree(a) && CallFree(b)
    case _ => true
  }

  /** Only calls can change what names are bound to. */
  lemma {:induction false} CallFreePure(w: World, st: St, e: Expr, fuel: nat)
    requires CallFree(e)
    ensures Eval(w, st, e, fuel).st.slots == st.slots
    decreases e
  {
    hide At, Arith, Compared, Item, Signed, Invoke, Builtin, EvalAll;
    if Stopped(st) { return; }
    match e
    case List(items) => AllCallFreePure(w, st, items, fuel);
    case Index(a, b) =>
      CallFreePure(w, st, a, fuel);
      CallFreePure(w, Eval(w, st, a, fuel).st, b, fuel);
    case Unary(_, a) => CallFreePure(w, st, a, fuel);
    case Binop(_, a, b) =>
      CallFreePure(w, st, a, fuel);
      CallFreePure(w, Eval(w, st, a, fuel).st, b, fuel);
    case Compare(_, a, b) =>
      CallFreePure(w, st, a, fuel);
      CallFreePure(w, Eval(w, st, a, fuel).st, b, fuel);
    case _ =>
  }

  lemma {:induction false} AllCallFreePure(w: World, st: St, es: seq<Expr>, fuel: nat)
    requires forall x :: x in es ==> CallFree(x)
    ensures EvalAll(w, st, es, fuel).st.slots == st.slots
    decreases es
  {
    hide Eval;
    if es != [] {
      CallFreePure(w, st, es[0], fuel);
      AllCallFreePure(w, Eval(w, st, es[0], fuel).st, es[1..], fuel);
    }
  }

  /** Binding the first parameters to arguments without calls changes those names only. */
  lemma {:induction false} BeforeOthers(w: World, st: St, params: seq<string>, args: seq<Expr>, i: nat, fuel: nat)
    requires Env(st.slots) && i <= |params| == |args| && forall x :: x in args ==> CallFree(x)
    ensures forall n :: n !in params[..i] ==> At(Before(w, st, params, args, i, fuel).slots, n) == At(st.slots, n)
    decreases i
  {
    hide Eval, At, Env, Assigned;
    if i > 0 {
      var r := Eval(w, st, args[0], fuel);
      CallFreePure(w, st, args[0], fuel);
      AssignedKeeps(r.st, params[0], r.v);
      var st' := Bind(w, st, params[0], args[0], fuel);
      BeforeOthers(w, st', params[1..], args[1..], i - 1, fuel);
      forall n | n !in params[..i] ensures At(Before(w, st, params, args, i, fuel).slots, n) == At(st.slots, n) {
        assert params[0] == params[..i][0];
        assert params[1..][..i - 1] == params[..i][1..];
        assert n !in params[1..][..i - 1];
      }
    }
  }

  /** Between an argument without calls and the next one bound to the same name, that name has the argument's value. */
  lemma {:induction false} BeforeHolds(w: World, st: St, params: seq<string>, args: seq<Expr>, i: nat, k: nat,
                                       fuel: nat)
    requires Env(st.slots) && i < k < |params| == |args| && params[i] !in params[i + 1..k]
    requires !Passed(w, st, params, args, fuel).st.err && forall x :: x in args ==> CallFree(x)
    ensures At(Before(w, st, params, args, k, fuel).slots, params[i])
      == Some(Eval(w, Before(w, st, params, args, i, fuel), args[i], fuel).v)
    decreases i
  {
    hide Eval, At, Env, Assigned, Bind;
    var st1 := Bind(w, st, params[0], args[0], fuel);
    BindKeeps(w, st, params[0], args[0], fuel);
    if i == 0 {
      BindGives(w, st, params[0], args[0], fuel);
      assert params[1..][..k - 1] == params[1..k];
      BeforeOthers(w, st1, params[1..], args[1..], k - 1, fuel);
    } else {
      assert params[1..][i..k - 1] == params[i + 1..k];
      BeforeHolds(w, st1, params[1..], args[1..], i - 1, k - 1, fuel);
    }
  }

  lemma BindGives(w: World, st: St, param: string, arg: Expr, fuel: nat)
    requires Env(st.slots) && CallFree(arg) && !Bind(w, st, param, arg, fuel).err
    ensures At(Bind(w, st, param, arg, fuel).slots, param) == Some(Eval(w, st, arg, fuel).v)
  {
    hide Eval, At, Env;
    CallFreePure(w, st, arg, fuel);
    StoredBinds(st.slots, param, Eval(w, st, arg, fuel).v);
  }

  /**
   * When the arguments call nothing, a call leaves a parameter's name as it found it if it occurs once among the
   * parameters. If it occurs more often, the value of the last but one of its arguments stays behind, so the name is
   * left as it was if and only if it was bound to that value.
   */
  lemma CallLeaves(w: World, st: St, params: seq<string>, body: seq<Stmt>, args: seq<Expr>, n: string, fuel: nat)
    requires Env(st.slots) && |params| == |args| <= FUNC_ARGS && fuel > 0 && n in params
    requires !Passed(w, st, params, args, fuel).st.err && forall x :: x in args ==> CallFree(x)
    ensures var k, now := LastOf(params, n), At(Invoke(w, st, params, body, args, fuel).st.slots, n);
      if n !in params[..k] then now == At(st.slots, n)
      else
        var i := LastOf(params[..k], n);
        now == Some(Eval(w, Before(w, st, params, args, i, fuel), args[i], fuel).v)
  {
    hide Invoke, Before, At, Env, Passed, Eval;
    CallRestores(w, st, params, body, args, fuel);
    var k := LastOf(params, n);
    if n !in params[..k] {
      BeforeOthers(w, st, params, args, k, fuel);
    } else {
      var i := LastOf(params[..k], n);
      NoneBetween(params, k, i, n);
      BeforeHolds(w, st, params, args, i, k, fuel);
    }
  }

  lemma NoneBetween(params: seq<string>, k: nat, i: nat, n: string)
    requires k < |params| && n in params[..k] && i == LastOf(params[..k], n)
    ensures params[i] == n && n !in params[i + 1..k]
  {
    forall j | i + 1 <= j < k ensures params[j] != n {
      assert params[..k][j] == params[j];
    }
  }

  /** With distinct parameters and arguments that call nothing, a call leaves its parameters' names as it found them. */
  lemma CallTransparent(w: World, st: St, params: seq<string>, body: seq<Stmt>, args: seq<Expr>, fuel: nat)
    requires Env(st.slots) && Distinct(params) && |params| == |args| <= FUNC_ARGS && fuel > 0
    requires !Passed(w, st, params, args, fuel).st.err && forall x :: x in args ==> CallFree(x)
    ensures forall n :: n in params ==> At(Invoke(w, st, params, body, args, fuel).st.slots, n) == At(st.slots, n)
  {
    hide Invoke, At, Env, Passed;
    forall n | n in params ensures At(Invoke(w, st, params, body, args, fuel).st.slots, n) == At(st.slots, n) {
      CallLeaves(w, st, params, body, args, n, fuel);
    }
  }

  /** Of two parameters of one name that was free, the first argument stays behind. */
  lemma DuplicateLeaks(w: World, st: St, name: string, body: seq<Stmt>, i: int, j: int, fuel: nat)
    requires Env(st.slots) && fuel > 0 && At(st.slots, name).None?
    requires !Passed(w, st, [name, name], [Int(i), Int(j)], fuel).st.err && !Stopped(st)
    ensures At(Invoke(w, st, [name, name], body, [Int(i), Int(j)], fuel).st.slots, name) == Some(IntV(i))
  {
    hide Env, At, Invoke, Passed;
    var params := [name, name];
    assert params[1..] == [name] && params[..1] == [name];
    CallLeaves(w, st, params, body, [Int(i), Int(j)], name, fuel);
  }
}
