/**
 * The evaluator as the source has it: one object with slots, updated in place, proved against what evaluation means.
 */
module PyContext {
  import opened Wrappers
  import opened PyTokens
  import opened PyGrammar
  import opened PyEnv
  import opened PyEval

  const ENV_SLOTS: nat := 128

  class Context {
    const slots: array<Slot>
    var hasErr: bool
    var returning: bool
    var retval: Value
    var made: nat
    var asked: seq<Ask>

    ghost function State(): St
      reads this, slots
    {
      St(slots[..], hasErr, returning, retval, made, asked)
    }

    constructor ()
      ensures fresh(slots) && slots.Length == ENV_SLOTS && Env(slots[..])
      ensures forall n :: At(slots[..], n).None?
      ensures !Stopped(State())
    {
      slots := new Slot[ENV_SLOTS](_ => Slot(false, [], NoneV));
      hasErr, returning, retval, made, asked := false, false, NoneV, 0, [];
    }

    // ---- the environment ----

    method EnvGet(name: string) returns (v: Option<Value>)
      ensures v == At(slots[..], name)
    {
      var i := 0;
      while i < slots.Length
        invariant i <= slots.Length
        invariant forall j :: 0 <= j < i ==> !Holds(slots[j], name)
      {
        if slots[i].used && slots[i].name == name {
          assert SlotOf(slots[..], name) == i;
          return Some(slots[i].value);
        }
        i := i + 1;
      }
      return None;
    }

    /** One pass: the slot of the name, and the first free one on the way. */
    method EnvSet(name: string, v: Value) returns (ok: bool)
      modifies this`hasErr, slots
      ensures State() == Assigned(old(State()), name, v)
      ensures ok <==> Stored(old(slots[..]), name, v).Some?
    {
      if |name| >= NAME_MAX {
        hasErr := true;
        return false;
      }
      var i, free := 0, -1;
      ghost var sl := slots[..];
      while i < slots.Length
        invariant i <= slots.Length && slots[..] == sl && hasErr == old(hasErr)
        invariant forall j :: 0 <= j < i ==> !Holds(sl[j], name)
        invariant free == -1 ==> forall j :: 0 <= j < i ==> sl[j].used
        invariant free != -1 ==> 0 <= free < i && !sl[free].used && forall j :: 0 <= j < free ==> sl[j].used
      {
        if slots[i].used && slots[i].name == name {
          slots[i] := slots[i].(value := v);
          assert SlotOf(sl, name) == i;
          assert slots[..] == sl[i := sl[i].(value := v)];
          return true;
        }
        if !slots[i].used && free < 0 {
          free := i;
        }
        i := i + 1;
      }
      assert SlotOf(sl, name) == |sl|;
      if free < 0 {
        hasErr := true;
        return false;
      }
      assert FirstFree(sl) == free;
      slots[free] := Slot(true, name, v);
      assert slots[..] == sl[free := Slot(true, name, v)];
      return true;
    }

    method Unbind(name: string)
      modifies slots
      ensures slots[..] == Freed(old(slots[..]), name)
    {
      hide Freed;
      var j := 0;
      ghost var sl := slots[..];
      while j < slots.Length
        invariant j <= slots.Length
        invariant forall i :: 0 <= i < j ==> slots[i] == if Holds(sl[i], name) then sl[i].(used := false) else sl[i]
        invariant forall i :: j <= i < slots.Length ==> slots[i] == sl[i]
      {
        if slots[j].used && slots[j].name == name {
          slots[j] := slots[j].(used := false);
        }
        j := j + 1;
      }
    }

    // ---- expressions ----

    method EvalNode(w: World, e: Expr, fuel: nat) returns (v: Value)
      modifies this, slots
      ensures Out(State(), v) == Eval(w, old(State()), e, fuel)
      decreases fuel, e, 2
    {
      hide At, Assigned, Arith, Compared, Item, Signed, Invoke, Builtin, EvalAll, Truthy, AsInt;
      if hasErr || returning {
        return retval;
      }
      match e
      case NoneLit => return NoneV;
      case Int(i) => return IntV(i);
      case Bool(b) => return BoolV(b);
      case Str(s) => return StrV(s);
      case Name(id) =>
        var x := EnvGet(id);
        v := Unwrap(x);
      case List(items) => v := EvalList(w, e, items, fuel);
      case Index(of, at) =>
        var a := EvalNode(w, of, fuel);
        if hasErr { return NoneV; }
        var b := EvalNode(w, at, fuel);
        if hasErr { return NoneV; }
        if AsInt(b).None? {
          hasErr := true;
          return NoneV;
        }
        v := Unwrap(Item(a, AsInt(b).value));
      case Unary(op, x) =>
        var a := EvalNode(w, x, fuel);
        if hasErr { return NoneV; }
        v := Unwrap(Signed(op, a));
      case Binop(_, _, _) => v := EvalBinop(w, e, fuel);
      case Compare(op, l, r) =>
        var a := EvalNode(w, l, fuel);
        if hasErr || returning { return NoneV; }
        var b := EvalNode(w, r, fuel);
        if hasErr || returning { return NoneV; }
        v := Unwrap(Compared(op, a, b));
      case Call(f, args) =>
        var fn := EnvGet(f);
        if fn.Some? && fn.value.FuncV? {
          v := CallUser(w, fn.value.params, fn.value.body, args, fuel);
        } else {
          v := CallBuiltin(w, f, args, fuel);
        }
    }

    /** A value, or the error that there is none. */
    method Unwrap(x: Option<Value>) returns (v: Value)
      modifies this`hasErr
      ensures Out(State(), v) == Given(old(State()), x)
    {
      if x.None? {
        hasErr := true;
        return NoneV;
      }
      return x.value;
    }

    method EvalBinop(w: World, e: Expr, fuel: nat) returns (v: Value)
      requires e.Binop? && !hasErr && !returning
      modifies this, slots
      ensures Out(State(), v) == Eval(w, old(State()), e, fuel)
      decreases fuel, e, 1
    {
      hide At, Arith, Compared, Item, Signed, Invoke, Builtin, EvalAll, Truthy, AsInt;
      var a := EvalNode(w, e.l, fuel);
      if e.op == AND {
        if hasErr || returning { return a; }
        if !Truthy(a) { return a; }
        v := EvalNode(w, e.r, fuel);
      } else if e.op == OR {
        if hasErr || returning { return a; }
        if Truthy(a) { return a; }
        v := EvalNode(w, e.r, fuel);
      } else {
        if hasErr || returning { return NoneV; }
        var b := EvalNode(w, e.r, fuel);
        if hasErr || returning { return NoneV; }
        made := made + 1;
        v := Unwrap(Arith(e.op, a, b, made - 1));
      }
    }

    method EvalList(w: World, e: Expr, items: seq<Expr>, fuel: nat) returns (v: Value)
      requires e == List(items) && !hasErr && !returning
      modifies this, slots
      ensures Out(State(), v) == Eval(w, old(State()), e, fuel)
      decreases fuel, e, 1
    {
      hide Eval, At;
      var i, list := 0, [];
      ghost var st0, vs := State(), [];
      assert items[0..] == items;
      while i < |items|
        invariant i <= |items| && list == Cut(vs) && !hasErr
        invariant var rest := EvalAll(w, State(), items[i..], fuel);
          EvalAll(w, st0, items, fuel) == Outs(rest.st, vs + rest.vs)
      {
        var x := EvalNode(w, items[i], fuel);
        assert items[i..][0] == items[i] && items[i..][1..] == items[i + 1..];
        if hasErr {
          ListEval(w, st0, items, fuel);
          return NoneV;
        }
        list := if |list| >= LIST_MAX then list else list + [x];
        vs := vs + [x];
        i := i + 1;
      }
      assert items[i..] == [] && vs + [] == vs;
      ListEval(w, st0, items, fuel);
      made := made + 1;
      return ListV(made - 1, list);
    }

    method CallBuiltin(w: World, name: string, args: seq<Expr>, fuel: nat) returns (v: Value)
      modifies this, slots
      ensures Out(State(), v) == Builtin(w, old(State()), name, |args|, [], args, fuel)
      decreases fuel, args, 2
    {
      hide Eval, At;
      var i, values := 0, [];
      ghost var st0 := State();
      assert args[0..] == args;
      while true
        invariant i <= |args|
        invariant Builtin(w, st0, name, |args|, [], args, fuel) == Builtin(w, State(), name, |args|, values, args[i..],
          fuel)
        decreases |args| - i
      {
        var ask := Ask(name, |args|, values);
        var answer := w.answer(asked, ask);
        asked := asked + [ask];
        match answer
        case Give(x) => return x;
        case Fail =>
          hasErr := true;
          return NoneV;
        case Next =>
          if i == |args| {
            hasErr := true;
            return NoneV;
          }
          assert args[i..][0] == args[i] && args[i..][1..] == args[i + 1..];
          var x := EvalNode(w, args[i], fuel);
          if hasErr { return NoneV; }
          values, i := values + [x], i + 1;
      }
    }

    /** Calls: arity, parameters, body, and the former bindings back. */
    method CallUser(w: World, params: seq<string>, body: seq<Stmt>, args: seq<Expr>, fuel: nat) returns (v: Value)
      requires !hasErr
      modifies this, slots
      ensures Out(State(), v) == Invoke(w, old(State()), params, body, args, fuel)
      decreases fuel, args, 2
    {
      hide Exec, Passed, Restored, At;
      if |params| != |args| || |params| > FUNC_ARGS || fuel == 0 {
        hasErr := true;
        return NoneV;
      }
      var saved := PassArgs(w, params, args, fuel);
      if hasErr { return NoneV; }
      returning, retval := false, NoneV;
      v := EvalBlock(w, body, fuel - 1);
      if returning {
        v := retval;
      }
      returning := false;
      Restore(params, saved);
    }

    method PassArgs(w: World, params: seq<string>, args: seq<Expr>, fuel: nat) returns (saved: seq<Option<Value>>)
      requires !hasErr && |params| == |args|
      modifies this, slots
      ensures Args(State(), saved) == Passed(w, old(State()), params, args, fuel)
      decreases fuel, args, 1
    {
      hide Eval, Stored, At;
      var i := 0;
      saved := [];
      ghost var st0 := State();
      assert args[0..] == args && params[0..] == params;
      while i < |params|
        invariant i <= |params| && !hasErr
        invariant var rest := Passed(w, State(), params[i..], args[i..], fuel);
          Passed(w, st0, params, args, fuel) == Args(rest.st, saved + rest.saved)
      {
        ghost var st := State();
        assert args[i..][0] == args[i] && args[i..][1..] == args[i + 1..];
        assert params[i..][0] == params[i] && params[i..][1..] == params[i + 1..];
        var former := EnvGet(params[i]);
        var x := EvalNode(w, args[i], fuel);
        if hasErr { return; }
        var ok := EnvSet(params[i], x);
        assert State() == Bind(w, st, params[i], args[i], fuel);
        if !ok { return; }
        saved := saved + [former];
        i := i + 1;
      }
    }

    method Restore(params: seq<string>, saved: seq<Option<Value>>)
      requires |params| == |saved|
      modifies this`hasErr, slots
      ensures State() == Restored(old(State()), params, saved)
    {
      hide Assigned, At;
      var i := 0;
      ghost var st0 := State();
      assert saved[0..] == saved && params[0..] == params;
      while i < |params|
        invariant i <= |params| && returning == st0.returning && retval == st0.retval && made == st0.made
        invariant asked == st0.asked
        invariant Restored(st0, params, saved) == Restored(State(), params[i..], saved[i..])
      {
        assert saved[i..][0] == saved[i] && saved[i..][1..] == saved[i + 1..];
        assert params[i..][0] == params[i] && params[i..][1..] == params[i + 1..];
        if saved[i].Some? {
          var _ := EnvSet(params[i], saved[i].value);
        } else {
          Unbind(params[i]);
        }
        i := i + 1;
      }
    }

    // ---- statements ----

    method EvalBlock(w: World, ss: seq<Stmt>, fuel: nat) returns (last: Value)
      modifies this, slots
      ensures Out(State(), last) == Exec(w, old(State()), NoneV, ss, fuel)
      decreases fuel, ss
    {
      hide ExecOne;
      last := NoneV;
      var i := 0;
      ghost var st0 := State();
      assert ss[0..] == ss;
      while i < |ss|
        invariant i <= |ss|
        invariant Exec(w, st0, NoneV, ss, fuel) == Exec(w, State(), last, ss[i..], fuel)
      {
        assert ss[i..][0] == ss[i] && ss[i..][1..] == ss[i + 1..];
        last := EvalStmt(w, ss[i], fuel);
        if hasErr || returning {
          return if returning then retval else last;
        }
        i := i + 1;
      }
    }

    method EvalStmt(w: World, s: Stmt, fuel: nat) returns (v: Value)
      modifies this, slots
      ensures Out(State(), v) == ExecOne(w, old(State()), s, fuel)
      decreases fuel, s, 2
    {
      hide Eval, Exec, Loop, Each, Stored, Truthy, Parts;
      if hasErr || returning { return retval; }
      match s
      case Pass => return NoneV;
      case Return(None) =>
        retval, returning := NoneV, true;
        return NoneV;
      case Return(Some(e)) =>
        var x := EvalNode(w, e, fuel);
        retval := x;
        if hasErr { return NoneV; }
        returning := true;
        return x;
      case If(cond, thenPart, elsePart) =>
        var c := EvalNode(w, cond, fuel);
        if hasErr || returning { return c; }
        if Truthy(c) {
          v := EvalBlock(w, thenPart, fuel);
        } else {
          match elsePart
          case NoElse => return NoneV;
          case Elif(s') => v := EvalStmt(w, s', fuel);
          case ElseBlock(b) => v := EvalBlock(w, b, fuel);
        }
      case While(_, _) => v := EvalWhile(w, s, fuel);
      case For(_, over, _) =>
        var items := EvalNode(w, over, fuel);
        if hasErr || returning { return items; }
        if Parts(items).None? {
          hasErr := true;
          return NoneV;
        }
        v := EvalFor(w, s, Parts(items).value, fuel);
      case Def(name, params, body) =>
        var fn := FuncV(made, params, body);
        made := made + 1;
        var ok := EnvSet(name, fn);
        return if ok then fn else NoneV;
      case Import(name) =>
        var file := if |name| <= MODULE_NAME_MAX then name else name[..MODULE_NAME_MAX];
        if file !in w.modules || fuel == 0 {
          hasErr := true;
          return NoneV;
        }
        var _ := EvalBlock(w, w.modules[file], fuel - 1);
        return NoneV;
      case Assign(name, e) =>
        var x := EvalNode(w, e, fuel);
        if hasErr { return NoneV; }
        var ok := EnvSet(name, x);
        return if ok then x else NoneV;
      case ExprStmt(e) =>
        var x := EvalNode(w, e, fuel);
        if hasErr || returning { return x; }
        return if e.Call? then NoneV else x;
    }

    method EvalWhile(w: World, s: Stmt, fuel: nat) returns (v: Value)
      requires s.While?
      modifies this, slots
      ensures Out(State(), v) == Loop(w, old(State()), s, WHILE_GUARD, fuel)
      decreases fuel, s, 1
    {
      hide Eval, Exec, Truthy;
      var guard := 0;
      ghost var st0 := State();
      while guard < WHILE_GUARD
        invariant guard <= WHILE_GUARD
        invariant Loop(w, st0, s, WHILE_GUARD, fuel) == Loop(w, State(), s, WHILE_GUARD - guard, fuel)
      {
        guard := guard + 1;
        var c := EvalNode(w, s.cond, fuel);
        if hasErr || returning { return c; }
        if !Truthy(c) { return NoneV; }
        var _ := EvalBlock(w, s.body, fuel);
        if hasErr || returning { return retval; }
      }
      return NoneV;
    }

    method EvalFor(w: World, s: Stmt, vs: seq<Value>, fuel: nat) returns (v: Value)
      requires s.For? && !hasErr
      modifies this, slots
      ensures Out(State(), v) == Each(w, old(State()), s, vs, fuel)
      decreases fuel, s, 1
    {
      hide Exec, Stored;
      var i := 0;
      ghost var st0 := State();
      assert vs[0..] == vs;
      while i < |vs|
        invariant i <= |vs| && !hasErr
        invariant Each(w, st0, s, vs, fuel) == Each(w, State(), s, vs[i..], fuel)
      {
        assert vs[i..][0] == vs[i] && vs[i..][1..] == vs[i + 1..];
        var ok := EnvSet(s.target, vs[i]);
        if !ok { return NoneV; }
        var _ := EvalBlock(w, s.body, fuel);
        if hasErr || returning { return retval; }
        i := i + 1;
      }
      return NoneV;
    }

    /** A whole module, from a clean slate. */
    method EvalModule(w: World, ss: seq<Stmt>, fuel: nat) returns (v: Value)
      modifies this, slots
      ensures Out(State(), v) == Exec(w, old(State()).(err := false, returning := false), NoneV, ss, fuel)
    {
      hasErr, returning := false, false;
      v := EvalBlock(w, ss, fuel);
    }
  }

  lemma ListEval(w: World, st: St, items: seq<Expr>, fuel: nat)
    requires !Stopped(st)
    ensures var r := EvalAll(w, st, items, fuel);
      Eval(w, st, List(items), fuel) ==
        if r.st.err then Out(r.st, NoneV) else Out(r.st.(made := r.st.made + 1), ListV(r.st.made, Cut(r.vs)))
  {}
}
