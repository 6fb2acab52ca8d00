/** A window's event queue: a ring that merges resizes and pointer moves and keeps everything else in order. */
module EventRing {
  import opened Bytes

  const MOUSE: nat := 2
  const RESIZE: nat := 3

  datatype Event = Event(typ: nat, key: int, x: int, y: int, buttons: int)

  // ---- the queue as a sequence ----

  /** The first event of a type from position `i` on; the length if there is none. */
  function FirstOf(q: seq<Event>, typ: nat, i: nat): (k: nat)
    requires i <= |q|
    ensures i <= k <= |q|
    ensures forall j :: i <= j < k ==> q[j].typ != typ
    ensures k < |q| ==> q[k].typ == typ
    decreases |q| - i
  {
    if i == |q| || q[i].typ == typ then i else FirstOf(q, typ, i + 1)
  }

  function Moved(was: Event, e: Event): Event { was.(x := e.x, y := e.y, buttons := e.buttons) }

  function Resized(was: Event, e: Event): Event { was.(x := e.x, y := e.y) }

  /** The queue after posting, and whether the event was taken; `room` is the most it can hold. */
  function Posted(q: seq<Event>, room: nat, e: Event): (seq<Event>, bool) {
    var r := FirstOf(q, RESIZE, 0);
    if e.typ == RESIZE && r < |q| then (q[r := Resized(q[r], e)], true)
    else if e.typ == MOUSE && q != [] && q[|q| - 1].typ == MOUSE then (q[|q| - 1 := Moved(q[|q| - 1], e)], true)
    else if |q| < room then (q + [e], true)
    else
      var m := FirstOf(q, MOUSE, 0);
      if e.typ == MOUSE && m < |q| then (q[m := Moved(q[m], e)], true) else (q, false)
  }

  /** Events that are never merged. */
  predicate Hard(e: Event) { e.typ != MOUSE && e.typ != RESIZE }

  function HardOnes(q: seq<Event>): seq<Event> {
    if q == [] then [] else HardOnes(q[..|q| - 1]) + if Hard(q[|q| - 1]) then [q[|q| - 1]] else []
  }

  /** At most one resize is pending, and no two pointer moves are neighbours. */
  ghost predicate Tidy(q: seq<Event>) {
    && (forall i, j :: 0 <= i < j < |q| ==> !(q[i].typ == RESIZE && q[j].typ == RESIZE))
    && (forall i :: 0 < i < |q| ==> !(q[i - 1].typ == MOUSE && q[i].typ == MOUSE))
  }

  lemma PostedTidy(q: seq<Event>, room: nat, e: Event)
    requires Tidy(q)
    ensures Tidy(Posted(q, room, e).0)
  {
  }

  lemma {:induction false} HardSplit(a: seq<Event>, b: seq<Event>)
    ensures HardOnes(a + b) == HardOnes(a) + HardOnes(b)
  {
    if b == [] {
      assert a + b == a;
    } else {
      HardSplit(a, b[..|b| - 1]);
      assert (a + b)[..|a + b| - 1] == a + b[..|b| - 1];
    }
  }

  /** Merging into an event that may be merged changes no other kind. */
  lemma HardMerged(q: seq<Event>, i: nat, e: Event)
    requires i < |q| && !Hard(q[i]) && !Hard(e)
    ensures HardOnes(q[i := e]) == HardOnes(q)
  {
    assert q == q[..i] + [q[i]] + q[i + 1..] && q[i := e] == q[..i] + [e] + q[i + 1..];
    HardSplit(q[..i] + [q[i]], q[i + 1..]);
    HardSplit(q[..i], [q[i]]);
    HardSplit(q[..i] + [e], q[i + 1..]);
    HardSplit(q[..i], [e]);
  }

  /** A key or a close that is taken comes last among its kind; nothing else changes them. */
  lemma PostedHard(q: seq<Event>, room: nat, e: Event)
    ensures var (q', ok) := Posted(q, room, e);
      HardOnes(q') == HardOnes(q) + if Hard(e) && ok then [e] else []
  {
    var r, m := FirstOf(q, RESIZE, 0), FirstOf(q, MOUSE, 0);
    if e.typ == RESIZE && r < |q| {
      HardMerged(q, r, Resized(q[r], e));
    } else if e.typ == MOUSE && q != [] && q[|q| - 1].typ == MOUSE {
      HardMerged(q, |q| - 1, Moved(q[|q| - 1], e));
    } else if |q| < room {
      HardSplit(q, [e]);
    } else if e.typ == MOUSE && m < |q| {
      HardMerged(q, m, Moved(q[m], e));
    }
  }

  /** An event is refused if and only if the queue is full and holds none to merge it with; then nothing changes. */
  lemma Refused(q: seq<Event>, room: nat, e: Event)
    ensures !Posted(q, room, e).1 <==> |q| >= room && (Hard(e) || forall i :: 0 <= i < |q| ==> q[i].typ != e.typ)
    ensures !Posted(q, room, e).1 ==> Posted(q, room, e).0 == q
  {
  }

  /**
   * What is taken is in the queue with its own place and buttons, in one event of its kind; all others stay. While
   * there is room a pointer move comes last, whatever is pending.
   */
  lemma PostedNewest(q: seq<Event>, room: nat, e: Event) returns (k: nat)
    requires Posted(q, room, e).1
    ensures var q' := Posted(q, room, e).0;
      && k < |q'| && q'[k].typ == e.typ && q'[k].x == e.x && q'[k].y == e.y
      && (e.typ != RESIZE ==> q'[k].buttons == e.buttons) && (Hard(e) ==> q'[k] == e)
      && (if |q'| == |q| then !Hard(e) && q[k].typ == e.typ else |q'| == |q| + 1 && k == |q|)
      && (forall j :: 0 <= j < |q| && j != k ==> q'[j] == q[j])
      && (e.typ == MOUSE && |q| < room ==> k == |q'| - 1)
  {
    var r, m := FirstOf(q, RESIZE, 0), FirstOf(q, MOUSE, 0);
    k := if e.typ == RESIZE && r < |q| then r
      else if e.typ == MOUSE && q != [] && q[|q| - 1].typ == MOUSE then |q| - 1
      else if |q| < room then |q| else m;
  }

  // ---- whole runs ----

  datatype Op = Post(e: Event) | Poll

  /** The queue, the hard events accepted and those polled, after a run from an empty queue. */
  datatype Trace = Trace(q: seq<Event>, taken: seq<Event>, polled: seq<Event>)

  function After(ops: seq<Op>, room: nat): Trace {
    if ops == [] then Trace([], [], [])
    else
      var t := After(ops[..|ops| - 1], room);
      match ops[|ops| - 1]
      case Post(e) =>
        var (q, ok) := Posted(t.q, room, e);
        t.(q := q, taken := if Hard(e) && ok then t.taken + [e] else t.taken)
      case Poll =>
        if t.q == [] then t else t.(q := t.q[1..], polled := if Hard(t.q[0]) then t.polled + [t.q[0]] else t.polled)
  }

  /**
   * In every run accepted keys and closes are polled once each and in order, and the queue stays tidy and within its
   * room.
   */
  lemma {:induction false} InOrder(ops: seq<Op>, room: nat)
    ensures var t := After(ops, room); t.taken == t.polled + HardOnes(t.q) && Tidy(t.q) && |t.q| <= room
  {
    hide Posted, HardOnes, Tidy;
    if ops == [] {
      NothingYet();
    } else {
      InOrder(ops[..|ops| - 1], room);
      var t := After(ops[..|ops| - 1], room);
      match ops[|ops| - 1]
      case Post(e) =>
        PostedHard(t.q, room, e);
        PostedTidy(t.q, room, e);
        PostedFits(t.q, room, e);
      case Poll =>
        if t.q != [] {
          PolledTidy(t.q);
          PolledHard(t.q);
        }
    }
  }

  lemma NothingYet()
    ensures HardOnes([]) == [] && Tidy([])
  {
  }

  lemma PostedFits(q: seq<Event>, room: nat, e: Event)
    requires |q| <= room
    ensures |Posted(q, room, e).0| <= room
  {
  }

  lemma PolledTidy(q: seq<Event>)
    requires Tidy(q) && q != []
    ensures Tidy(q[1..])
  {
  }

  lemma PolledHard(q: seq<Event>)
    requires q != []
    ensures HardOnes(q) == (if Hard(q[0]) then [q[0]] else []) + HardOnes(q[1..])
  {
    assert q == [q[0]] + q[1..];
    HardSplit([q[0]], q[1..]);
  }

  // ---- the ring ----

  /** How many events lie between the read and the write index of a ring of `n` slots. */
  function Count(n: nat, r: nat, w: nat): (c: nat)
    ensures r < n && w < n ==> c < n
  {
    if r <= w then w - r else if r <= w + n then w + n - r else 0
  }

  /** The slot `k` places behind the read index. */
  function Slot(n: nat, r: nat, k: nat): (i: nat)
    ensures r < n && k <= n ==> i < n
  {
    if r + k < n then r + k else r + k - n
  }

  /** The pending events, oldest first. */
  function Contents(buf: seq<Event>, r: nat, w: nat): (q: seq<Event>)
    requires r < |buf| && w < |buf|
    ensures |q| == Count(|buf|, r, w)
    ensures forall k :: 0 <= k < |q| ==> q[k] == buf[Slot(|buf|, r, k)]
  {
    seq(Count(|buf|, r, w), k requires 0 <= k < Count(|buf|, r, w) => buf[Slot(|buf|, r, k)])
  }

  lemma NextSlot(n: nat, r: nat, k: nat)
    requires r < n && k < n
    ensures (Slot(n, r, k) + 1) % n == Slot(n, r, k + 1)
  {
    var i := Slot(n, r, k) + 1;
    if i == n {
      DivModUnique(i, n, 1, 0);
    } else {
      DivModUnique(i, n, 0, i);
    }
  }

  lemma LastSlot(n: nat, r: nat, w: nat)
    requires r < n && w < n
    ensures Slot(n, r, Count(n, r, w)) == w && (r == w <==> Count(n, r, w) == 0)
    ensures r != w ==> (w + n - 1) % n == Slot(n, r, Count(n, r, w) - 1)
    ensures (w + 1) % n == r <==> Count(n, r, w) == n - 1
  {
    if w == 0 {
      DivModUnique(n - 1, n, 0, n - 1);
    } else {
      DivModUnique(w + n - 1, n, 1, w - 1);
    }
    if w + 1 == n {
      DivModUnique(n, n, 1, 0);
    } else {
      DivModUnique(w + 1, n, 0, w + 1);
    }
  }

  /** Overwriting a pending event. */
  lemma SetAt(buf: seq<Event>, r: nat, w: nat, k: nat, e: Event)
    requires r < |buf| && w < |buf| && k < Count(|buf|, r, w)
    ensures Contents(buf[Slot(|buf|, r, k) := e], r, w) == Contents(buf, r, w)[k := e]
  {
  }

  /** Writing behind the newest one. */
  lemma Append(buf: seq<Event>, r: nat, w: nat, e: Event)
    requires r < |buf| && w < |buf| && (w + 1) % |buf| != r
    ensures (w + 1) % |buf| < |buf| && Contents(buf[w := e], r, (w + 1) % |buf|) == Contents(buf, r, w) + [e]
  {
    var n := |buf|;
    LastSlot(n, r, w);
    NextSlot(n, r, Count(n, r, w));
    var w' := (w + 1) % n;
    LastSlot(n, r, w');
    assert Count(n, r, w') == Count(n, r, w) + 1;
  }

  /** Taking the oldest one. */
  lemma Advance(buf: seq<Event>, r: nat, w: nat)
    requires r < |buf| && w < |buf| && r != w
    ensures (r + 1) % |buf| < |buf| && Contents(buf, r, w) != [] && Contents(buf, r, w)[0] == buf[r]
    ensures Contents(buf, (r + 1) % |buf|, w) == Contents(buf, r, w)[1..]
  {
    var n := |buf|;
    NextSlot(n, r, 0);
  }

  class Ring {
    const ev: array<Event>
    var r: nat
    var w: nat

    ghost predicate Valid()
      reads this
    {
      ev.Length > 1 && r < ev.Length && w < ev.Length
    }

    ghost function Pending(): (q: seq<Event>)
      requires Valid()
      reads this, ev
    {
      Contents(ev[..], r, w)
    }

    constructor (size: nat)
      requires size > 1
      ensures Valid() && ev.Length == size && Pending() == [] && fresh(ev)
    {
      ev := new Event[size](_ => Event(0, 0, 0, 0, 0));
      r, w := 0, 0;
    }

    /** The slot of the first pending event of a type; the write index if there is none. */
    method Find(typ: nat) returns (i: nat, ghost k: nat)
      requires Valid()
      ensures k == FirstOf(Pending(), typ, 0) && i == Slot(ev.Length, r, k) && i < ev.Length
      ensures (i == w <==> k == |Pending()|)
    {
      hide Slot, Count, Contents;
      ghost var n := ev.Length;
      i, k := r, 0;
      FirstSlot(n, r, w);
      while i != w
        invariant k <= Count(n, r, w) && i == Slot(n, r, k) && i < n && (i == w <==> k == Count(n, r, w))
        invariant FirstOf(Pending(), typ, k) == FirstOf(Pending(), typ, 0)
        decreases Count(n, r, w) - k
      {
        if ev[i].typ == typ {
          return;
        }
        NextSlot(n, r, k);
        SlotIsLast(n, r, w, k + 1);
        i := (i + 1) % ev.Length;
        k := k + 1;
      }
    }

    method Post(e: Event) returns (ok: bool)
      requires Valid()
      modifies this`w, ev
      ensures Valid() && (Pending(), ok) == Posted(old(Pending()), ev.Length - 1, e)
    {
      hide Slot, Count, Contents, FirstOf;
      ghost var q := Pending();
      LastSlot(ev.Length, r, w);
      if e.typ == RESIZE {
        var i, k := Find(RESIZE);
        if i != w {
          SetAt(ev[..], r, w, k, ev[i].(x := e.x, y := e.y));
          ev[i] := ev[i].(x := e.x, y := e.y);
          return true;
        }
      }
      if e.typ == MOUSE && r != w {
        var last := (w + ev.Length - 1) % ev.Length;
        if ev[last].typ == MOUSE {
          SetAt(ev[..], r, w, |q| - 1, ev[last].(x := e.x, y := e.y, buttons := e.buttons));
          ev[last] := ev[last].(x := e.x, y := e.y, buttons := e.buttons);
          return true;
        }
      }
      var next := (w + 1) % ev.Length;
      if next == r {
        if e.typ == MOUSE {
          var i, k := Find(MOUSE);
          if i != w {
            SetAt(ev[..], r, w, k, ev[i].(x := e.x, y := e.y, buttons := e.buttons));
            ev[i] := ev[i].(x := e.x, y := e.y, buttons := e.buttons);
            return true;
          }
        }
        return false;
      }
      Append(ev[..], r, w, e);
      ev[w] := e;
      w := next;
      ok := true;
    }

    method Poll() returns (e: Event, ok: bool)
      requires Valid()
      modifies this`r
      ensures Valid() && ok == (old(Pending()) != [])
      ensures ok ==> e == old(Pending())[0] && Pending() == old(Pending())[1..]
      ensures !ok ==> Pending() == old(Pending())
    {
      hide Slot, Count, Contents;
      LastSlot(ev.Length, r, w);
      if r == w {
        return Event(0, 0, 0, 0, 0), false;
      }
      Advance(ev[..], r, w);
      e := ev[r];
      r := (r + 1) % ev.Length;
      ok := true;
    }
  }

  lemma FirstSlot(n: nat, r: nat, w: nat)
    requires r < n && w < n
    ensures Slot(n, r, 0) == r && (r == w <==> 0 == Count(n, r, w))
  {
  }

  lemma SlotIsLast(n: nat, r: nat, w: nat, k: nat)
    requires r < n && w < n && k <= Count(n, r, w)
    ensures Slot(n, r, k) < n && (Slot(n, r, k) == w <==> k == Count(n, r, w))
  {
  }
}
