/** Cluster chains in the allocation table: following, growing and freeing them. */
module FatChain {
  import opened Bytes
  import opened FatTable

  /** Every entry either ends a chain or names a cluster of the volume. */
  ghost predicate InRange(g: Geometry, t: seq<nat>) {
    forall c :: 2 <= c < |t| ==> g.IsEoc(t[c]) || t[c] < |t|
  }

  predicate Stops(g: Geometry, c: nat) { c < 2 || g.IsEoc(c) }

  ghost predicate Distinct(s: seq<nat>) {
    forall i, j :: 0 <= i < j < |s| ==> s[i] != s[j]
  }

  /** `ch` is the whole chain that starts at `ch[0]`: linked, finite, free of repetition, properly ended. */
  ghost predicate Chain(g: Geometry, t: seq<nat>, ch: seq<nat>) {
    && |ch| > 0
    && (forall i :: 0 <= i < |ch| ==> 2 <= ch[i] < |t| && !g.IsEoc(ch[i]))
    && (forall i :: 0 <= i < |ch| - 1 ==> t[ch[i]] == ch[i + 1])
    && g.IsEoc(t[ch[|ch| - 1]])
    && Distinct(ch)
  }

  /** A file without clusters has the empty chain. */
  ghost predicate ChainOk(g: Geometry, t: seq<nat>, ch: seq<nat>) { ch == [] || Chain(g, t, ch) }

  function Head(ch: seq<nat>): nat { if ch == [] then 0 else ch[0] }

  /** Clusters in use. */
  ghost function Used(t: seq<nat>): set<nat> { set c: nat | c < |t| && t[c] != 0 }

  /** The table after `free_chain(cl)`; defined on every table whose entries are in range, cyclic ones included. */
  ghost function Freed(g: Geometry, t: seq<nat>, cl: nat): (t': seq<nat>)
    requires InRange(g, t)
    requires Stops(g, cl) || cl < |t|
    ensures |t'| == |t|
    decreases Used(t), if Stops(g, cl) then 0 else 1
  {
    if Stops(g, cl) then t
    else
      assert Used(t[cl := 0]) == Used(t) - {cl};
      assert t[cl] != 0 ==> cl in Used(t);
      Freed(g, t[cl := 0], t[cl])
  }

  lemma FreedStopped(g: Geometry, t: seq<nat>, cl: nat)
    requires InRange(g, t) && Stops(g, cl)
    ensures Freed(g, t, cl) == t
  {
  }

  lemma FreedStep(g: Geometry, t: seq<nat>, cl: nat)
    requires InRange(g, t) && !Stops(g, cl) && cl < |t|
    ensures InRange(g, t[cl := 0]) && (Stops(g, t[cl]) || t[cl] < |t|)
    ensures Freed(g, t, cl) == Freed(g, t[cl := 0], t[cl])
    ensures Used(t[cl := 0]) == Used(t) - {cl} && (t[cl] != 0 ==> cl in Used(t)) && (t[cl] == 0 ==> Stops(g, t[cl]))
  {
  }

  /** The table with exactly the clusters of `ch` released. */
  ghost function Cleared(t: seq<nat>, ch: seq<nat>): (t': seq<nat>)
    ensures |t'| == |t|
    ensures forall c :: 0 <= c < |t| ==> t'[c] == if c in ch then 0 else t[c]
  {
    seq(|t|, c requires 0 <= c < |t| => if c in ch then 0 else t[c])
  }

  /** Freeing a chain returns exactly that chain. */
  lemma {:induction false} FreedIsCleared(g: Geometry, t: seq<nat>, ch: seq<nat>)
    requires InRange(g, t) && Chain(g, t, ch)
    ensures Freed(g, t, ch[0]) == Cleared(t, ch)
    decreases |ch|
  {
    var t1 := t[ch[0] := 0];
    if |ch| == 1 {
      assert Freed(g, t1, t[ch[0]]) == t1;
    } else {
      var rest := ch[1..];
      assert Chain(g, t1, rest);
      FreedIsCleared(g, t1, rest);
      assert forall c :: c in ch <==> c == ch[0] || c in rest;
    }
    assert Freed(g, t, ch[0]) == Cleared(t, ch);
  }

  /** Following the table `n` steps from `cl`. */
  ghost function Walk(g: Geometry, t: seq<nat>, cl: nat, n: nat): nat
    requires InRange(g, t)
    requires Stops(g, cl) || cl < |t|
    decreases n
  {
    if n == 0 || Stops(g, cl) then cl else Walk(g, t, t[cl], n - 1)
  }

  /** A free cluster stays free. */
  lemma {:induction false} FreedOnlyClears(g: Geometry, t: seq<nat>, cl: nat, c: nat)
    requires InRange(g, t) && (Stops(g, cl) || cl < |t|) && c < |t|
    ensures Freed(g, t, cl)[c] == t[c] || Freed(g, t, cl)[c] == 0
    decreases Used(t), if Stops(g, cl) then 0 else 1
  {
    if !Stops(g, cl) {
      assert Used(t[cl := 0]) == Used(t) - {cl};
      assert t[cl] != 0 ==> cl in Used(t);
      FreedOnlyClears(g, t[cl := 0], t[cl], c);
    }
  }

  /** Leaving out a cluster's link only shortens walks that pass it. */
  lemma {:induction false} WalkAvoiding(g: Geometry, t: seq<nat>, cut: nat, x: nat, n: nat)
    requires InRange(g, t) && (Stops(g, x) || x < |t|) && cut < |t| && !Stops(g, cut)
    requires !Stops(g, Walk(g, t[cut := 0], x, n)) && Walk(g, t[cut := 0], x, n) != cut
    ensures Walk(g, t, x, n) == Walk(g, t[cut := 0], x, n)
    decreases n
  {
    if n != 0 && !Stops(g, x) {
      assert x != cut;
      WalkAvoiding(g, t, cut, t[x], n - 1);
    }
  }

  /** Every cluster released was reachable from the start. */
  lemma {:induction false} FreedWasReached(g: Geometry, t: seq<nat>, cl: nat, c: nat) returns (n: nat)
    requires InRange(g, t) && (Stops(g, cl) || cl < |t|)
    requires c < |t| && t[c] != 0 && Freed(g, t, cl)[c] == 0
    ensures !Stops(g, c) && Walk(g, t, cl, n) == c
    decreases Used(t), if Stops(g, cl) then 0 else 1
  {
    if c == cl {
      n := 0;
    } else {
      assert Used(t[cl := 0]) == Used(t) - {cl};
      assert t[cl] != 0 ==> cl in Used(t);
      var m := FreedWasReached(g, t[cl := 0], t[cl], c);
      WalkAvoiding(g, t, cl, t[cl], m);
      n := m + 1;
    }
  }

  /** A walk that never meets `cut` is unaffected by cutting there. */
  lemma {:induction false} WalkMissing(g: Geometry, t: seq<nat>, cut: nat, x: nat, n: nat)
    requires InRange(g, t) && (Stops(g, x) || x < |t|) && cut < |t| && !Stops(g, cut)
    requires forall k: nat :: k < n ==> Walk(g, t, x, k) != cut
    ensures Walk(g, t[cut := 0], x, n) == Walk(g, t, x, n)
    decreases n
  {
    if n != 0 && !Stops(g, x) {
      assert Walk(g, t, x, 0) != cut;
      forall k: nat | k < n - 1 ensures Walk(g, t, t[x], k) != cut {
        assert Walk(g, t, x, k + 1) == Walk(g, t, t[x], k);
      }
      WalkMissing(g, t, cut, t[x], n - 1);
    }
  }

  lemma {:induction false} WalkSplit(g: Geometry, t: seq<nat>, x: nat, m: nat, n: nat)
    requires InRange(g, t) && (Stops(g, x) || x < |t|)
    ensures Stops(g, Walk(g, t, x, m)) || Walk(g, t, x, m) < |t|
    ensures Walk(g, t, x, m + n) == Walk(g, t, Walk(g, t, x, m), n)
    decreases m
  {
    if m != 0 && !Stops(g, x) {
      WalkSplit(g, t, t[x], m - 1, n);
    }
  }

  /** Every cluster reachable from the start is released. */
  lemma {:induction false} ReachedIsFreed(g: Geometry, t: seq<nat>, cl: nat, n: nat)
    requires InRange(g, t) && (Stops(g, cl) || cl < |t|)
    requires !Stops(g, Walk(g, t, cl, n))
    ensures Walk(g, t, cl, n) < |t| && Freed(g, t, cl)[Walk(g, t, cl, n)] == 0
    decreases Used(t), if Stops(g, cl) then 0 else 1, n
  {
    var c := Walk(g, t, cl, n);
    WalkSplit(g, t, cl, n, 0);
    assert !Stops(g, cl);
    var t1 := t[cl := 0];
    assert Used(t1) == Used(t) - {cl};
    assert t[cl] != 0 ==> cl in Used(t);
    if c == cl {
      FreedOnlyClears(g, t1, t[cl], c);
    } else if k: nat :| 0 < k < n && Walk(g, t, cl, k) == cl {
      WalkSplit(g, t, cl, k, n - k);
      ReachedIsFreed(g, t, cl, n - k);
    } else {
      forall k: nat | k < n - 1 ensures Walk(g, t, t[cl], k) != cl {
        assert Walk(g, t, cl, k + 1) == Walk(g, t, t[cl], k);
      }
      WalkMissing(g, t, cl, t[cl], n - 1);
      ReachedIsFreed(g, t1, t[cl], n - 1);
    }
  }

  /**
   * On any table in range, cyclic or not, exactly the clusters reachable from `cl` become free and no others change.
   */
  lemma FreedExactlyReached(g: Geometry, t: seq<nat>, cl: nat, c: nat)
    requires InRange(g, t) && (Stops(g, cl) || cl < |t|) && c < |t|
    ensures (!Stops(g, c) && exists n :: Walk(g, t, cl, n) == c) ==> Freed(g, t, cl)[c] == 0
    ensures !(!Stops(g, c) && exists n :: Walk(g, t, cl, n) == c) ==> Freed(g, t, cl)[c] == t[c]
  {
    if !Stops(g, c) && exists n :: Walk(g, t, cl, n) == c {
      var n :| Walk(g, t, cl, n) == c;
      ReachedIsFreed(g, t, cl, n);
    } else {
      FreedOnlyClears(g, t, cl, c);
      if Freed(g, t, cl)[c] != t[c] {
        var n := FreedWasReached(g, t, cl, c);
        assert false;
      }
    }
  }

  /** Chains are determined by their first cluster. */
  lemma {:induction false} ChainUnique(g: Geometry, t: seq<nat>, c1: seq<nat>, c2: seq<nat>)
    requires Chain(g, t, c1) && Chain(g, t, c2) && c1[0] == c2[0]
    ensures c1 == c2
    decreases |c1|
  {
    assert |c1| > 1 ==> t[c1[0]] == c1[1];
    assert |c2| > 1 ==> t[c2[0]] == c2[1];
    if |c1| > 1 && |c2| > 1 {
      ChainUnique(g, t, c1[1..], c2[1..]);
      assert c1 == [c1[0]] + c1[1..] && c2 == [c2[0]] + c2[1..];
    }
  }

  /** Chain members are in use, so allocation never hands one out. */
  lemma ChainInUse(g: Geometry, t: seq<nat>, ch: seq<nat>)
    requires g.Valid() && Chain(g, t, ch)
    ensures forall c :: c in ch ==> 2 <= c < |t| && t[c] != 0
  {
    forall c | c in ch ensures 2 <= c < |t| && t[c] != 0 {
      var i :| 0 <= i < |ch| && ch[i] == c;
      assert i < |ch| - 1 ==> t[c] == ch[i + 1];
    }
  }

  /** A chain only depends on its own entries. */
  lemma ChainFrame(g: Geometry, t: seq<nat>, t': seq<nat>, ch: seq<nat>)
    requires ChainOk(g, t, ch) && |t'| == |t|
    requires forall c :: c in ch && c < |t| ==> t'[c] == t[c]
    ensures ChainOk(g, t', ch)
  {
  }

  /** The table after a free cluster is claimed and linked behind the chain's last one. */
  ghost function Linked(g: Geometry, t: seq<nat>, ch: seq<nat>, c: nat): (t': seq<nat>)
    requires ChainOk(g, t, ch) && 2 <= c < |t|
    ensures |t'| == |t|
  {
    var t1 := t[c := g.EocMark()];
    if ch == [] then t1 else t1[ch[|ch| - 1] := c]
  }

  lemma LinkedItself(g: Geometry, t: seq<nat>, ch: seq<nat>, c: nat)
    requires g.Valid() && |t| == g.Last() && ChainOk(g, t, ch) && 2 <= c < |t| && t[c] == 0
    ensures Chain(g, Linked(g, t, ch, c), ch + [c]) && c !in ch
    ensures forall x :: 0 <= x < |t| && x != c && x !in ch ==> Linked(g, t, ch, c)[x] == t[x]
  {
    if ch != [] { ChainInUse(g, t, ch); }
  }

  /** Growing a chain keeps it a chain and leaves every other chain alone. */
  lemma LinkedChain(g: Geometry, t: seq<nat>, ch: seq<nat>, c: nat)
    requires g.Valid() && |t| == g.Last() && ChainOk(g, t, ch) && 2 <= c < |t| && t[c] == 0
    ensures Chain(g, Linked(g, t, ch, c), ch + [c])
    ensures forall o :: ChainOk(g, t, o) && (forall x :: x in o ==> x !in ch) ==> ChainOk(g, Linked(g, t, ch, c), o)
  {
    var t' := Linked(g, t, ch, c);
    LinkedItself(g, t, ch, c);
    hide Chain;
    forall o | ChainOk(g, t, o) && (forall x :: x in o ==> x !in ch) ensures ChainOk(g, t', o) {
      if o != [] { ChainInUse(g, t, o); }
      ChainFrame(g, t, t', o);
    }
  }
}
