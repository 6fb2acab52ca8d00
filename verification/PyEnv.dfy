/** The environment of minipy: a fixed number of slots as a map from names to values. */
module PyEnv {
  import opened Wrappers
  import opened PyGrammar

  const NAME_MAX: nat := 32

  /** Lists, functions and files are told apart by the object they are, not by what they hold. */
  datatype Value =
    | NoneV
    | BoolV(b: bool)
    | IntV(i: int)
    | StrV(s: string)
    | ListV(id: nat, items: seq<Value>)
    | FuncV(id: nat, params: seq<string>, body: seq<Stmt>)
    | FileV(id: nat)

  datatype Slot = Slot(used: bool, name: string, value: Value)

  /** At most one used slot per name, and no name longer than a slot holds. */
  ghost predicate Env(sl: seq<Slot>) {
    Unique(sl) && forall i :: 0 <= i < |sl| && sl[i].used ==> |sl[i].name| < NAME_MAX
  }

  ghost predicate Unique(sl: seq<Slot>) {
    forall i, j :: 0 <= i < j < |sl| && sl[i].used && sl[j].used ==> sl[i].name != sl[j].name
  }

  predicate Holds(s: Slot, name: string) { s.used && s.name == name }

  /** The slot of a name; their number if there is none. */
  function SlotOf(sl: seq<Slot>, name: string): (i: nat)
    ensures i <= |sl| && (i < |sl| ==> Holds(sl[i], name)) && forall j :: 0 <= j < i ==> !Holds(sl[j], name)
  {
    if sl == [] then 0 else if Holds(sl[0], name) then 0 else 1 + SlotOf(sl[1..], name)
  }

  /** What a name is bound to. */
  function At(sl: seq<Slot>, name: string): Option<Value> {
    var i := SlotOf(sl, name);
    if i < |sl| then Some(sl[i].value) else None
  }

  lemma AtSlot(sl: seq<Slot>, i: nat, name: string)
    requires Unique(sl) && i < |sl| && Holds(sl[i], name)
    ensures SlotOf(sl, name) == i && At(sl, name) == Some(sl[i].value)
  {
    var k := SlotOf(sl, name);
    assert k <= i;
  }

  /** One slot changed: names other than the old and the new one are bound as before. */
  lemma AtOther(sl: seq<Slot>, i: nat, s: Slot, name: string)
    requires Unique(sl) && i < |sl| && Unique(sl[i := s]) && !Holds(sl[i], name) && !Holds(s, name)
    ensures At(sl[i := s], name) == At(sl, name)
  {
    var k := SlotOf(sl, name);
    var sl' := sl[i := s];
    if k < |sl| {
      assert sl'[k] == sl[k];
      AtSlot(sl', k, name);
    } else {
      assert forall j :: 0 <= j < |sl| ==> !Holds(sl'[j], name);
    }
  }

  /** Every name that was bound still is, in an environment of the same size. */
  ghost predicate Keeps(sl: seq<Slot>, sl': seq<Slot>) {
    Env(sl') && |sl'| == |sl| && forall n :: At(sl, n).Some? ==> At(sl', n).Some?
  }

  /** One name is now bound as given, or not bound; all others are as before. */
  ghost predicate Bound(sl: seq<Slot>, sl': seq<Slot>, name: string, v: Option<Value>) {
    Env(sl') && |sl'| == |sl| && forall n :: At(sl', n) == if n == name then v else At(sl, n)
  }

  lemma KeepsOn(a: seq<Slot>, b: seq<Slot>, c: seq<Slot>)
    requires Keeps(a, b) && Keeps(b, c)
    ensures Keeps(a, c)
  {}

  /** The first slot not in use; their number if there is none. */
  function FirstFree(sl: seq<Slot>): (i: nat)
    ensures i <= |sl| && (i < |sl| ==> !sl[i].used) && forall j :: 0 <= j < i ==> sl[j].used
  {
    if sl == [] then 0 else if !sl[0].used then 0 else 1 + FirstFree(sl[1..])
  }

  /** Binding a name: in its slot, or else in the first free one. Fails on a long name or a full environment. */
  function Stored(sl: seq<Slot>, name: string, v: Value): Option<seq<Slot>> {
    var i := SlotOf(sl, name);
    var f := FirstFree(sl);
    if |name| >= NAME_MAX then None
    else if i < |sl| then Some(sl[i := sl[i].(value := v)])
    else if f < |sl| then Some(sl[f := Slot(true, name, v)])
    else None
  }

  /** Every slot of the name given up. */
  function Freed(sl: seq<Slot>, name: string): (sl': seq<Slot>)
    ensures |sl'| == |sl|
    ensures forall i :: 0 <= i < |sl| ==> sl'[i] == if Holds(sl[i], name) then sl[i].(used := false) else sl[i]
  {
    if sl == [] then [] else [if Holds(sl[0], name) then sl[0].(used := false) else sl[0]] + Freed(sl[1..], name)
  }

  lemma Overwritten(sl: seq<Slot>, i: nat, name: string, v: Value)
    requires Env(sl) && i < |sl| && Holds(sl[i], name)
    ensures Bound(sl, sl[i := sl[i].(value := v)], name, Some(v))
  {
    var sl' := sl[i := sl[i].(value := v)];
    AtSlot(sl', i, name);
    forall n | n != name ensures At(sl', n) == At(sl, n) {
      AtOther(sl, i, sl'[i], n);
    }
  }

  lemma Added(sl: seq<Slot>, i: nat, name: string, v: Value)
    requires Env(sl) && i < |sl| && !sl[i].used && |name| < NAME_MAX
    requires forall j :: 0 <= j < |sl| ==> !Holds(sl[j], name)
    ensures Bound(sl, sl[i := Slot(true, name, v)], name, Some(v))
  {
    var sl' := sl[i := Slot(true, name, v)];
    assert forall j :: 0 <= j < |sl| && j != i ==> sl'[j] == sl[j];
    AtSlot(sl', i, name);
    forall n | n != name ensures At(sl', n) == At(sl, n) {
      AtOther(sl, i, sl'[i], n);
    }
  }

  /** Binding binds that name only; it fails exactly on a name that is too long or that is new to a full environment. */
  lemma StoredBinds(sl: seq<Slot>, name: string, v: Value)
    requires Env(sl)
    ensures var r := Stored(sl, name, v);
      && (r.None? <==> |name| >= NAME_MAX || (At(sl, name).None? && forall i :: 0 <= i < |sl| ==> sl[i].used))
      && (r.Some? ==> Bound(sl, r.value, name, Some(v)))
  {
    var i, f := SlotOf(sl, name), FirstFree(sl);
    if |name| < NAME_MAX && i < |sl| {
      Overwritten(sl, i, name, v);
    } else if |name| < NAME_MAX && f < |sl| {
      Added(sl, f, name, v);
    }
  }

  lemma BoundShort(sl: seq<Slot>, name: string)
    requires Env(sl) && At(sl, name).Some?
    ensures |name| < NAME_MAX
  {}

  /** Giving up a name takes it away and nothing else. */
  lemma FreedUnbinds(sl: seq<Slot>, name: string)
    requires Env(sl)
    ensures Bound(sl, Freed(sl, name), name, None)
  {
    var sl' := Freed(sl, name);
    forall n | n != name ensures At(sl', n) == At(sl, n) {
      var k := SlotOf(sl, n);
      if k < |sl| {
        AtSlot(sl', k, n);
      } else {
        assert forall j :: 0 <= j < |sl| ==> !Holds(sl'[j], n);
      }
    }
  }
}
