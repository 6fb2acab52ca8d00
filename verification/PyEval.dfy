/**
 * What the evaluator of minipy does to its state, and why a call leaves its parameters' names as it found them although
 * there is one environment for all functions.
 */
module PyEval {
  import opened Wrappers
  import opened PyTokens
  import opened PyGrammar
  import opened PyEnv

  const FUNC_ARGS: nat := 8
  const LIST_MAX: nat := 64
  const WHILE_GUARD: nat := 100000
  const MODULE_NAME_MAX: nat := 36

  // ---- values ----

  function Truthy(v: Value): bool {
    match v
    case NoneV => false
    case BoolV(b) => b
    case IntV(i) => i != 0
    case StrV(s) => s != []
    case ListV(_, l) => l != []
    case _ => true
  }

  function AsInt(v: Value): Option<int> {
    match v
    case IntV(i) => Some(i)
    case BoolV(b) => Some(if b then 1 else 0)
    case _ => None
  }

  /** Division as the machine does it, towards zero. */
  function Quot(a: int, b: int): (q: int)
    requires b != 0
    ensures a == q * b + Rem(a, b)
  {
    if (a >= 0) == (b > 0) then Abs(a) / Abs(b) else -(Abs(a) / Abs(b))
  }

  function Rem(a: int, b: int): (r: int)
    requires b != 0
  {
    if a >= 0 then Abs(a) % Abs(b) else -(Abs(a) % Abs(b))
  }

  function Abs(n: int): nat { if n < 0 then -n else n }

  function Repeat(s: string, n: nat): string { if n == 0 then [] else Repeat(s, n - 1) + s }

  /** The result of an operator, or nothing if its operands do not fit; a new list is the object given. */
  function Arith(op: Kind, a: Value, b: Value, id: nat): Option<Value> {
    if op == PLUS && a.StrV? && b.StrV? then Some(StrV(a.s + b.s))
    else if op == PLUS && a.ListV? && b.ListV? then Some(ListV(id, Cut(a.items + b.items)))
    else if op == STAR && a.StrV? && (b.IntV? || b.BoolV?)
      then Some(StrV(if AsInt(b).value <= 0 then [] else Repeat(a.s, AsInt(b).value)))
    else if AsInt(a).None? || AsInt(b).None? then None
    else
      var x, y := AsInt(a).value, AsInt(b).value;
      match op
      case PLUS => Some(IntV(Int32(x + y)))
      case MINUS => Some(IntV(Int32(x - y)))
      case STAR => Some(IntV(Int32(x * y)))
      case SLASH => if y == 0 then None else Some(IntV(Int32(Quot(x, y))))
      case PERCENT => if y == 0 then None else Some(IntV(Rem(x, y)))
      case _ => None
  }

  /** Lists hold at most so many items; the rest is dropped. */
  function Cut(s: seq<Value>): seq<Value> { if |s| <= LIST_MAX then s else s[..LIST_MAX] }

  predicate Less(a: string, b: string) {
    |b| > 0 && (|a| == 0 || a[0] < b[0] || (a[0] == b[0] && Less(a[1..], b[1..])))
  }

  function Compared(op: Kind, a: Value, b: Value): Option<Value> {
    if a.StrV? && b.StrV? then
      Some(BoolV(match op
        case EQEQ => a.s == b.s
        case NE => a.s != b.s
        case LT => Less(a.s, b.s)
        case GT => Less(b.s, a.s)
        case LE => !Less(b.s, a.s)
        case GE => !Less(a.s, b.s)
        case _ => false))
    else if AsInt(a).None? || AsInt(b).None? then
      if op == EQEQ then Some(BoolV(a == b)) else if op == NE then Some(BoolV(a != b)) else None
    else
      var x, y := AsInt(a).value, AsInt(b).value;
      Some(BoolV(match op
        case EQEQ => x == y
        case NE => x != y
        case LT => x < y
        case GT => x > y
        case LE => x <= y
        case GE => x >= y
        case _ => false))
  }

  /** An item of a list or a character of a string; a negative index counts from the end. */
  function Item(a: Value, i: int): Option<Value> {
    var n := if a.ListV? then |a.items| else if a.StrV? then |a.s| else 0;
    var k := if i < 0 then i + n else i;
    if k < 0 || k >= n then None
    else if a.ListV? then Some(a.items[k])
    else Some(StrV([a.s[k]]))
  }

  function Signed(op: Kind, a: Value): Option<Value> {
    if op == NOT then Some(BoolV(!Truthy(a)))
    else if AsInt(a).None? then None
    else if op == PLUS then Some(IntV(AsInt(a).value))
    else if op == MINUS then Some(IntV(Int32(-AsInt(a).value)))
    else None
  }

  /** What a `for` goes over. */
  function Parts(v: Value): Option<seq<Value>> {
    match v
    case ListV(_, items) => Some(items)
    case StrV(s) => Some(seq(|s|, i requires 0 <= i < |s| => StrV([s[i]])))
    case _ => None
  }

  // ---- state ----

  /**
   * A question to a built-in function: its name, how many arguments it got, and the values of those evaluated so far.
   */
  datatype Ask = Ask(name: string, given: nat, values: seq<Value>)

  /** A built-in function wants its next argument evaluated, or ends with a value, or with an error. */
  datatype Answer = Next | Give(v: Value) | Fail

  /**
   * What the evaluator runs in: the modules that can be read and parsed, by name, and the built-in functions, which may
   * answer depending on everything they were ever asked.
   */
  datatype World = World(modules: map<string, seq<Stmt>>, answer: (seq<Ask>, Ask) -> Answer)

  datatype St = St(slots: seq<Slot>, err: bool, returning: bool, retval: Value, made: nat, asked: seq<Ask>)

  datatype Out = Out(st: St, v: Value)
  datatype Outs = Outs(st: St, vs: seq<Value>)

  /** An error or a return on its way: nothing is evaluated. */
  predicate Stopped(st: St) { st.err || st.returning }

  function Failed(st: St): Out { Out(st.(err := true), NoneV) }

  function Given(st: St, v: Option<Value>): Out { if v.None? then Failed(st) else Out(st, v.value) }

  /** Binding a name; an error if that is impossible. */
  function Assigned(st: St, name: string, v: Value): St {
    var sl := Stored(st.slots, name, v);
    if sl.None? then st.(err := true) else st.(slots := sl.value)
  }

  function Kept(st: St, v: Value): Out { Out(st, if st.err then NoneV else v) }

  // ---- expressions ----

  function Eval(w: World, st: St, e: Expr, fuel: nat): Out
    decreases fuel, e, 0
  {
    if Stopped(st) then Out(st, st.retval) else
    match e
    case NoneLit => Out(st, NoneV)
    case Int(i) => Out(st, IntV(i))
    case Bool(b) => Out(st, BoolV(b))
    case Str(s) => Out(st, StrV(s))
    case Name(id) => Given(st, At(st.slots, id))
    case List(items) =>
      var r := EvalAll(w, st, items, fuel);
      if r.st.err then Out(r.st, NoneV) else Out(r.st.(made := r.st.made + 1), ListV(r.st.made, Cut(r.vs)))
    case Index(of, at) =>
      var a := Eval(w, st, of, fuel);
      if a.st.err then Out(a.st, NoneV) else
      var b := Eval(w, a.st, at, fuel);
      if b.st.err then Out(b.st, NoneV)
      else if AsInt(b.v).None? then Failed(b.st)
      else Given(b.st, Item(a.v, AsInt(b.v).value))
    case Unary(op, x) =>
      var a := Eval(w, st, x, fuel);
      if a.st.err then Out(a.st, NoneV) else Given(a.st, Signed(op, a.v))
    case Binop(op, l, r) =>
      var a := Eval(w, st, l, fuel);
      if op == AND then if Stopped(a.st) || !Truthy(a.v) then a else Eval(w, a.st, r, fuel)
      else if op == OR then if Stopped(a.st) || Truthy(a.v) then a else Eval(w, a.st, r, fuel)
      else if Stopped(a.st) then Out(a.st, NoneV)
      else
        var b := Eval(w, a.st, r, fuel);
        if Stopped(b.st) then Out(b.st, NoneV) else Given(b.st.(made := b.st.made + 1), Arith(op, a.v, b.v, b.st.made))
    case Compare(op, l, r) =>
      var a := Eval(w, st, l, fuel);
      if Stopped(a.st) then Out(a.st, NoneV) else
      var b := Eval(w, a.st, r, fuel);
      if Stopped(b.st) then Out(b.st, NoneV) else Given(b.st, Compared(op, a.v, b.v))
    case Call(f, args) =>
      var fn := At(st.slots, f);
      if fn.Some? && fn.value.FuncV? then Invoke(w, st, fn.value.params, fn.value.body, args, fuel)
      else Builtin(w, st, f, |args|, [], args, fuel)
  }

  /** Items one after the other, up to an error. */
  function EvalAll(w: World, st: St, es: seq<Expr>, fuel: nat): Outs
    decreases fuel, es
  {
    if es == [] then Outs(st, []) else
    var r := Eval(w, st, es[0], fuel);
    if r.st.err then Outs(r.st, []) else
    var rest := EvalAll(w, r.st, es[1..], fuel);
    Outs(rest.st, [r.v] + rest.vs)
  }

  /**
   * A built-in function evaluates as many of its arguments as it wants, up to an error; then it gives a value or fails.
   */
  function Builtin(w: World, st: St, name: string, given: nat, values: seq<Value>, args: seq<Expr>, fuel: nat): Out
    decreases fuel, args
  {
    var ask := Ask(name, given, values);
    var st' := st.(asked := st.asked + [ask]);
    match w.answer(st.asked, ask)
    case Give(v) => Out(st', v)
    case Fail => Failed(st')
    case Next =>
      if args == [] then Failed(st') else
      var r := Eval(w, st', args[0], fuel);
      if r.st.err then Out(r.st, NoneV) else Builtin(w, r.st, name, given, values + [r.v], args[1..], fuel)
  }

  /**
   * A call of a function: its parameters are bound to its arguments, its body runs, and the parameters get their former
   * bindings back. No depth of calls is left when the fuel is used up.
   */
  function Invoke(w: World, st: St, params: seq<string>, body: seq<Stmt>, args: seq<Expr>, fuel: nat): Out
    decreases fuel, args, 1
  {
    if |params| != |args| || |params| > FUNC_ARGS || fuel == 0 then Failed(st) else
    var p := Passed(w, st, params, args, fuel);
    if p.st.err then Failed(p.st) else
    var r := Exec(w, p.st.(returning := false, retval := NoneV), NoneV, body, fuel - 1);
    var v := if r.st.returning then r.st.retval else r.v;
    Out(Restored(r.st.(returning := false), params, p.saved), v)
  }

  datatype Args = Args(st: St, saved: seq<Option<Value>>)

  /**
   * Each parameter in turn: what it is bound to is put aside, its argument is evaluated, and it is bound to the value.
   */
  function Passed(w: World, st: St, params: seq<string>, args: seq<Expr>, fuel: nat): (p: Args)
    requires |params| == |args|
    ensures |p.saved| <= |params| && (!p.st.err ==> |p.saved| == |params|)
    decreases fuel, args, 0
  {
    if params == [] then Args(st, []) else
    var former := At(st.slots, params[0]);
    var st' := Bind(w, st, params[0], args[0], fuel);
    if st'.err then Args(st', []) else
    var rest := Passed(w, st', params[1..], args[1..], fuel);
    Args(rest.st, [former] + rest.saved)
  }

  /** One argument evaluated and bound. */
  function Bind(w: World, st: St, param: string, arg: Expr, fuel: nat): St
    decreases fuel, arg, 1
  {
    var r := Eval(w, st, arg, fuel);
    if r.st.err then r.st else Assigned(r.st, param, r.v)
  }

  /** The parameters get the bindings put aside, or none if they had none. */
  function Restored(st: St, params: seq<string>, saved: seq<Option<Value>>): St
    decreases |params|
  {
    if params == [] || saved == [] then st
    else Restored(GivenBack(st, params[0], saved[0]), params[1..], saved[1..])
  }

  function GivenBack(st: St, name: string, v: Option<Value>): St {
    if v.Some? then Assigned(st, name, v.value) else st.(slots := Freed(st.slots, name))
  }

  // ---- statements ----

  /** Statements one after the other, up to an error or a return. */
  function Exec(w: World, st: St, last: Value, ss: seq<Stmt>, fuel: nat): Out
    decreases fuel, ss
  {
    if ss == [] then Out(st, last) else
    var r := ExecOne(w, st, ss[0], fuel);
    if Stopped(r.st) then Out(r.st, if r.st.returning then r.st.retval else r.v)
    else Exec(w, r.st, r.v, ss[1..], fuel)
  }

  function ExecOne(w: World, st: St, s: Stmt, fuel: nat): Out
    decreases fuel, s
  {
    if Stopped(st) then Out(st, st.retval) else
    match s
    case Pass => Out(st, NoneV)
    case Return(None) => Out(st.(returning := true, retval := NoneV), NoneV)
    case Return(Some(e)) =>
      var r := Eval(w, st, e, fuel);
      var st' := r.st.(retval := r.v);
      if r.st.err then Out(st', NoneV) else Out(st'.(returning := true), r.v)
    case If(cond, thenPart, elsePart) =>
      var r := Eval(w, st, cond, fuel);
      if Stopped(r.st) then r
      else if Truthy(r.v) then Exec(w, r.st, NoneV, thenPart, fuel)
      else (match elsePart
        case NoElse => Out(r.st, NoneV)
        case Elif(s') => ExecOne(w, r.st, s', fuel)
        case ElseBlock(b) => Exec(w, r.st, NoneV, b, fuel))
    case While(_, _) => Loop(w, st, s, WHILE_GUARD, fuel)
    case For(_, over, _) =>
      var r := Eval(w, st, over, fuel);
      if Stopped(r.st) then r
      else if Parts(r.v).None? then Failed(r.st)
      else Each(w, r.st, s, Parts(r.v).value, fuel)
    case Def(name, params, body) =>
      var fn := FuncV(st.made, params, body);
      Kept(Assigned(st.(made := st.made + 1), name, fn), fn)
    case Import(name) =>
      var file := if |name| <= MODULE_NAME_MAX then name else name[..MODULE_NAME_MAX];
      if file !in w.modules || fuel == 0 then Failed(st)
      else Out(Exec(w, st, NoneV, w.modules[file], fuel - 1).st, NoneV)
    case Assign(name, e) =>
      var r := Eval(w, st, e, fuel);
      if r.st.err then Out(r.st, NoneV) else Kept(Assigned(r.st, name, r.v), r.v)
    case ExprStmt(e) =>
      var r := Eval(w, st, e, fuel);
      if Stopped(r.st) || !e.Call? then r else Out(r.st, NoneV)
  }

  /** A loop runs its body at most so often and then goes on as if its condition were false. */
  function Loop(w: World, st: St, s: Stmt, left: nat, fuel: nat): Out
    requires s.While?
    decreases fuel, s, left
  {
    if left == 0 then Out(st, NoneV) else
    var c := Eval(w, st, s.cond, fuel);
    if Stopped(c.st) then c
    else if !Truthy(c.v) then Out(c.st, NoneV)
    else
      var r := Exec(w, c.st, NoneV, s.body, fuel);
      if Stopped(r.st) then Out(r.st, r.st.retval) else Loop(w, r.st, s, left - 1, fuel)
  }

  /** The body once for each value, bound to the loop's name. */
  function Each(w: World, st: St, s: Stmt, vs: seq<Value>, fuel: nat): Out
    requires s.For?
    decreases fuel, s, |vs|
  {
    if vs == [] then Out(st, NoneV) else
    var st' := Assigned(st, s.target, vs[0]);
    if st'.err then Out(st', NoneV) else
    var r := Exec(w, st', NoneV, s.body, fuel);
    if Stopped(r.st) then Out(r.st, r.st.retval) else Each(w, r.st, s, vs[1..], fuel)
  }
}
