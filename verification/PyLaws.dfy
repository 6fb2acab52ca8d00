/** What the operators of minipy compute, by the laws they obey. */
module PyLaws {
  import opened Wrappers
  import opened Bytes
  import opened PyTokens
  import opened PyGrammar
  import opened PyEnv
  import opened PyEval

  // ---- numbers ----

  predicate Number(v: Value) { v.IntV? || v.BoolV? }

  /** The number a value stands for. */
  function Num(v: Value): int
    requires Number(v)
  {
    if v.IntV? then v.i else if v.b then 1 else 0
  }

  predicate Fits(x: int) { -0x8000_0000 <= x < 0x8000_0000 }

  /** The operation gives a number. */
  ghost predicate Gives(op: Kind, a: Value, b: Value, k: int) { forall id :: Arith(op, a, b, id) == Some(IntV(k)) }

  lemma OfNumbers(a: Value, b: Value)
    requires Number(a) && Number(b)
    ensures var x, y := Num(a), Num(b);
      && Gives(PLUS, a, b, Int32(x + y)) && Gives(MINUS, a, b, Int32(x - y)) && Gives(STAR, a, b, Int32(x * y))
      && (y != 0 ==> Gives(SLASH, a, b, Int32(Quot(x, y))) && Gives(PERCENT, a, b, Rem(x, y)))
  {
    hide Int32, Quot, Rem;
  }

  lemma GivesOnce(op: Kind, a: Value, b: Value, k: int, m: int)
    requires Gives(op, a, b, k) && Gives(op, a, b, m)
    ensures k == m
  {
    hide Arith;
    assert Arith(op, a, b, 0) == Some(IntV(k));
  }

  /** Addition goes up by ones, and is symmetric. */
  lemma PlusCounts(a: Value, b: Value, s: int)
    requires Number(a) && Number(b)
    ensures Fits(Num(a)) ==> Gives(PLUS, a, IntV(0), Num(a))
    ensures Fits(s + 1) && Fits(s) && Gives(PLUS, a, b, s) && !b.BoolV? ==> Gives(PLUS, a, IntV(b.i + 1), s + 1)
    ensures Gives(PLUS, a, b, s) <==> Gives(PLUS, b, a, s)
  {
    hide Arith, Int32;
    OfNumbers(a, b);
    OfNumbers(b, a);
    OfNumbers(a, IntV(0));
    Small(Num(a));
    Small(s + 1);
    if Gives(PLUS, a, b, s) {
      GivesOnce(PLUS, a, b, s, Int32(Num(a) + Num(b)));
      OfNumbers(a, IntV(Num(b) + 1));
      Int32Step(Num(a) + Num(b), 1, 1);
      assert s * 1 + 1 == s + 1;
      assert (Num(a) + Num(b)) * 1 + 1 == Num(a) + (Num(b) + 1);
    }
    if Gives(PLUS, b, a, s) {
      GivesOnce(PLUS, b, a, s, Int32(Num(a) + Num(b)));
    }
  }

  lemma Small(x: int)
    ensures Fits(x) ==> Int32(x) == x
  {
  }

  /** Adding what was subtracted gives back the number, and the other way round, also where a result wraps around. */
  lemma MinusUndoes(a: Value, b: Value, d: int)
    requires Number(a) && Number(b) && Fits(Num(a))
    ensures Gives(MINUS, a, b, d) ==> Gives(PLUS, IntV(d), b, Num(a))
    ensures Gives(PLUS, a, b, d) ==> Gives(MINUS, IntV(d), b, Num(a))
  {
    hide Arith, Int32;
    OfNumbers(a, b);
    OfNumbers(IntV(d), b);
    Small(Num(a));
    var x, y := Num(a), Num(b);
    if Gives(MINUS, a, b, d) {
      GivesOnce(MINUS, a, b, d, Int32(x - y));
      Int32Step(x - y, 1, y);
      assert d * 1 + y == d + y && (x - y) * 1 + y == x;
    }
    if Gives(PLUS, a, b, d) {
      GivesOnce(PLUS, a, b, d, Int32(x + y));
      Int32Step(x + y, 1, -y);
      assert d * 1 + -y == d - y && (x + y) * 1 + -y == x;
    }
  }

  /** A number added so many times. */
  function Times(x: int, n: nat): int { if n == 0 then 0 else Times(x, n - 1) + x }

  /** Multiplication is repeated addition, and of a negative number repeated subtraction. */
  lemma StarRepeats(a: Value, n: int)
    requires n >= 0 && Number(a) && Fits(Times(Num(a), n)) && Fits(-Times(Num(a), n))
    ensures Gives(STAR, a, IntV(n), Times(Num(a), n)) && Gives(STAR, a, IntV(-n), -Times(Num(a), n))
  {
    hide Arith, Int32;
    TimesIs(Num(a), n);
    OfNumbers(a, IntV(n));
    OfNumbers(a, IntV(-n));
    Small(Num(a) * n);
    Small(-(Num(a) * n));
    assert Num(a) * -n == -(Num(a) * n);
  }

  lemma {:induction false} TimesIs(x: int, n: nat)
    ensures Times(x, n) == x * n
  {
    if n > 0 {
      TimesIs(x, n - 1);
      assert x * n == x * (n - 1) + x;
    }
  }

  /** Division and remainder belong together; the remainder is smaller than the divisor and has the dividend's sign. */
  lemma Divides(a: Value, b: Value) returns (q: int, r: int)
    requires Number(a) && Number(b) && Num(b) != 0 && Fits(Num(a)) && Fits(Num(b))
    requires !(Num(a) == -0x8000_0000 && Num(b) == -1)
    ensures Gives(SLASH, a, b, q) && Gives(PERCENT, a, b, r)
    ensures Num(a) == q * Num(b) + r && Abs(r) < Abs(Num(b)) && (r == 0 || (r > 0 <==> Num(a) > 0))
  {
    hide Arith, Int32, Quot, Rem;
    q, r := Quot(Num(a), Num(b)), Rem(Num(a), Num(b));
    OfNumbers(a, b);
    QuotientFits(Num(a), Num(b));
    RemainderSmall(Num(a), Num(b));
    Small(q);
  }

  lemma RemainderSmall(x: int, y: int)
    requires y != 0
    ensures Abs(Rem(x, y)) < Abs(y) && (Rem(x, y) == 0 || (Rem(x, y) > 0 <==> x > 0))
  {
    hide Abs;
    AbsIs(x);
    AbsIs(y);
    ModSmall(Abs(x), Abs(y));
    AbsIs(Abs(x) % Abs(y));
    AbsIs(-(Abs(x) % Abs(y)));
    if x == 0 {
      assert 0 % Abs(y) == 0;
    }
  }

  lemma AbsIs(x: int)
    ensures Abs(x) == if x < 0 then -x else x
  {
  }

  lemma ModSmall(n: nat, m: nat)
    requires m > 0
    ensures 0 <= n % m < m
  {
  }

  lemma QuotientFits(x: int, y: int)
    requires y != 0 && Fits(x) && !(x == -0x8000_0000 && y == -1)
    ensures Fits(Quot(x, y))
  {
    var n, m := Abs(x), Abs(y);
    DivSmall(n, m);
  }

  lemma DivSmall(n: nat, m: nat)
    requires m > 0
    ensures 0 <= n / m <= n && (m > 1 ==> 2 * (n / m) <= n)
  {
    var q := n / m;
    assert n == q * m + n % m;
    MulMono(1, m, q);
    if m > 1 {
      MulMono(2, m, q);
    }
  }

  /** Operators are for numbers, but not to divide by zero; texts and lists can be added, and texts multiplied. */
  lemma Defined(op: Kind, a: Value, b: Value, id: nat)
    requires op in {PLUS, MINUS, STAR, SLASH, PERCENT}
    ensures Arith(op, a, b, id).Some? <==>
      || (Number(a) && Number(b) && (op in {SLASH, PERCENT} ==> Num(b) != 0))
      || (op == PLUS && ((a.StrV? && b.StrV?) || (a.ListV? && b.ListV?))) || (op == STAR && a.StrV? && Number(b))
  {
    hide Int32, Quot, Rem, Repeat, Cut;
  }

  // ---- text and lists ----

  /** Adding texts or lists puts the one behind the other; lists keep their first items. */
  lemma PlusJoins(a: Value, b: Value, id: nat)
    ensures a.StrV? && b.StrV? ==>
      var r := Arith(PLUS, a, b, id);
      r.Some? && r.value.StrV? && |r.value.s| == |a.s| + |b.s| && a.s <= r.value.s && r.value.s[|a.s|..] == b.s
    ensures a.ListV? && b.ListV? ==>
      var r := Arith(PLUS, a, b, id);
      && r.Some? && r.value.ListV? && r.value.id == id
      && |r.value.items| == Least(|a.items| + |b.items|, LIST_MAX)
      && (forall i :: 0 <= i < |r.value.items| && i < |a.items| ==> r.value.items[i] == a.items[i])
      && (forall i :: |a.items| <= i < |r.value.items| ==> r.value.items[i] == b.items[i - |a.items|])
  {
  }

  function Least(x: nat, y: nat): nat { if x < y then x else y }

  /** A text times a number is so many copies of it one behind the other, none for a number below 1. */
  lemma StarCopies(a: Value, m: int, n: int, id: nat)
    requires a.StrV? && m >= 0 && n >= 0
    ensures Arith(STAR, a, IntV(-n), id) == Some(StrV([])) && Arith(STAR, a, IntV(1), id) == Some(a)
    ensures var x, y, z := Arith(STAR, a, IntV(m), id), Arith(STAR, a, IntV(n), id), Arith(STAR, a, IntV(m + n), id);
      x.Some? && y.Some? && z.Some? && Arith(PLUS, x.value, y.value, id) == z
    ensures Arith(STAR, a, BoolV(true), id) == Some(a) && Arith(STAR, a, BoolV(false), id) == Some(StrV([]))
  {
    Copies(a.s, m, n);
    assert Repeat(a.s, 1) == Repeat(a.s, 0) + a.s == a.s;
  }

  lemma {:induction false} Copies(s: string, m: nat, n: nat)
    ensures Repeat(s, m + n) == Repeat(s, m) + Repeat(s, n)
    decreases n
  {
    if n > 0 {
      Copies(s, m, n - 1);
      assert Repeat(s, m) + (Repeat(s, n - 1) + s) == Repeat(s, m) + Repeat(s, n - 1) + s;
    } else {
      assert Repeat(s, m) + [] == Repeat(s, m);
    }
  }

  // ---- comparisons ----

  /** A comparison holds. */
  predicate Holds(op: Kind, a: Value, b: Value) { Compared(op, a, b) == Some(BoolV(true)) }

  predicate Ordered(a: Value, b: Value) { (Number(a) && Number(b)) || (a.StrV? && b.StrV?) }

  /** The six comparisons go by one order: exactly one of less, equal, greater; the other three are their opposites. */
  lemma Compares(a: Value, b: Value)
    requires Ordered(a, b)
    ensures forall op :: op in {EQEQ, NE, LT, GT, LE, GE} ==>
      Holds(op, a, b) || Compared(op, a, b) == Some(BoolV(false))
    ensures Holds(LT, a, b) || Holds(EQEQ, a, b) || Holds(GT, a, b)
    ensures !(Holds(LT, a, b) && Holds(EQEQ, a, b)) && !(Holds(LT, a, b) && Holds(GT, a, b))
    ensures !(Holds(EQEQ, a, b) && Holds(GT, a, b))
    ensures Holds(NE, a, b) == !Holds(EQEQ, a, b) && Holds(LE, a, b) == !Holds(GT, a, b)
    ensures Holds(GE, a, b) == !Holds(LT, a, b) && Holds(GT, a, b) == Holds(LT, b, a)
  {
    hide Less;
    if a.StrV? {
      LessTotal(a.s, b.s);
      LessOnce(a.s, b.s);
      LessSelf(a.s);
    }
  }

  /** Numbers are less than others by a positive amount, and texts by what comes first where they differ. */
  lemma LessMeans(a: Value, b: Value)
    requires Ordered(a, b)
    ensures a.StrV? ==> (Holds(LT, a, b) <==> Before(a.s, b.s)) && (Holds(EQEQ, a, b) <==> a.s == b.s)
    ensures Number(a) ==> (Holds(LT, a, b) <==> Num(b) - Num(a) > 0) && (Holds(EQEQ, a, b) <==> Num(b) - Num(a) == 0)
  {
    if a.StrV? {
      LessBefore(a.s, b.s);
    }
  }

  /** Less is transitive. */
  lemma LessOn(a: Value, b: Value, c: Value)
    requires Ordered(a, b) && Ordered(b, c) && Holds(LT, a, b) && Holds(LT, b, c)
    ensures Holds(LT, a, c)
  {
    if a.StrV? {
      LessTrans(a.s, b.s, c.s);
    }
  }

  /** The text ends first, or has the smaller character where they first differ. */
  ghost predicate Before(a: string, b: string) {
    exists k :: 0 <= k <= |a| && k < |b| && a[..k] == b[..k] && (k == |a| || a[k] < b[k])
  }

  lemma {:induction false} LessBefore(a: string, b: string)
    ensures Less(a, b) <==> Before(a, b)
    decreases |a|
  {
    if |b| > 0 {
      if |a| == 0 || a[0] < b[0] {
        assert a[..0] == b[..0];
      } else {
        LessBefore(a[1..], b[1..]);
        if a[0] == b[0] && Before(a[1..], b[1..]) {
          var k :| 0 <= k <= |a[1..]| && k < |b[1..]| && a[1..][..k] == b[1..][..k]
            && (k == |a[1..]| || a[1..][k] < b[1..][k]);
          assert a[..k + 1] == [a[0]] + a[1..][..k] && b[..k + 1] == [b[0]] + b[1..][..k];
        }
        if Before(a, b) {
          var k :| 0 <= k <= |a| && k < |b| && a[..k] == b[..k] && (k == |a| || a[k] < b[k]);
          assert k > 0;
          assert a[0] == a[..k][0] == b[..k][0] == b[0];
          assert a[1..][..k - 1] == a[..k][1..] && b[1..][..k - 1] == b[..k][1..];
        }
      }
    }
  }

  lemma {:induction false} LessTotal(a: string, b: string)
    ensures Less(a, b) || a == b || Less(b, a)
    decreases |a|
  {
    if |a| > 0 && |b| > 0 && a[0] == b[0] {
      LessTotal(a[1..], b[1..]);
      assert a == [a[0]] + a[1..] && b == [b[0]] + b[1..];
    }
  }

  lemma {:induction false} LessOnce(a: string, b: string)
    ensures !(Less(a, b) && Less(b, a))
    decreases |a|
  {
    if |a| > 0 && |b| > 0 {
      LessOnce(a[1..], b[1..]);
    }
  }

  lemma {:induction false} LessSelf(a: string)
    ensures !Less(a, a)
    decreases |a|
  {
    if |a| > 0 {
      LessSelf(a[1..]);
    }
  }

  lemma {:induction false} LessTrans(a: string, b: string, c: string)
    requires Less(a, b) && Less(b, c)
    ensures Less(a, c)
    decreases |a|
  {
    if |a| > 0 && a[0] == b[0] && b[0] == c[0] {
      LessTrans(a[1..], b[1..], c[1..]);
    }
  }

  /** Things that have no order are equal to themselves only, and there is nothing else to be compared. */
  lemma ComparesOther(op: Kind, a: Value, b: Value)
    requires !Ordered(a, b)
    ensures Holds(EQEQ, a, a) && (Holds(EQEQ, a, b) <==> a == b) && (Holds(NE, a, b) <==> a != b)
    ensures op !in {EQEQ, NE} ==> Compared(op, a, b) == None
  {
    hide Less;
    if a.StrV? {
      LessSelf(a.s);
    }
  }

  // ---- truth and signs ----

  /** What counts as false. */
  ghost predicate Falsy(v: Value) { v in {NoneV, BoolV(false), IntV(0), StrV([])} || exists id :: v == ListV(id, []) }

  /** `not` is true of what counts as false. */
  lemma NotMeans(a: Value)
    ensures Signed(NOT, a) == Some(BoolV(Falsy(a)))
  {
    hide Int32;
    if a.ListV? && a.items == [] {
      assert a == ListV(a.id, []);
    }
  }

  /** Minus takes from zero and twice gives the number; plus gives the number; nothing else has a sign. */
  lemma SignLaws(a: Value)
    ensures Number(a) && Fits(Num(a)) ==>
      var m := Signed(MINUS, a);
      && m.Some? && m.value.IntV? && Signed(MINUS, m.value) == Some(IntV(Num(a))) == Signed(PLUS, a)
      && Gives(MINUS, IntV(0), a, m.value.i)
    ensures !Number(a) ==> Signed(MINUS, a) == None && Signed(PLUS, a) == None
  {
    hide Int32, Truthy;
    if Number(a) && Fits(Num(a)) {
      NegatedTwice(Num(a));
      OfNumbers(IntV(0), a);
    }
  }

  lemma NegatedTwice(x: int)
    requires Fits(x)
    ensures Int32(-Int32(-x)) == x == Int32(x) && Int32(0 - x) == Int32(-x)
  {
    Int32Step(-x, -1, 0);
  }

  // ---- items ----

  /** Items are counted from the start, or with a negative number from the end; there are no others. */
  lemma ItemsCounted(a: Value, k: int)
    requires k >= 0 && (a.ListV? || a.StrV?)
    ensures var n := if a.ListV? then |a.items| else |a.s|;
      && (k < n ==> Item(a, k) == Some(if a.ListV? then a.items[k] else StrV([a.s[k]])))
      && (0 < k <= n ==> Item(a, -k) == Item(a, n - k) && Item(a, -k).Some?)
      && (k >= n ==> Item(a, k) == None && Item(a, -k - 1) == None)
  {
  }

  /** A `for` goes over all items, in order, and over nothing that has none. */
  lemma PartsAre(v: Value)
    ensures Parts(v).Some? <==> v.ListV? || v.StrV?
    ensures Parts(v).Some? ==>
      var p := Parts(v).value;
      (forall i :: 0 <= i < |p| ==> Item(v, i) == Some(p[i])) && Item(v, |p|) == None
  {
  }
}
