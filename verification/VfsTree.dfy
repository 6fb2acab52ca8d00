/** The node table of the in-memory file system as a tree: names, paths, and the pages files own. */
module VfsTree {
  import opened Wrappers
  import opened Bytes
  import opened Pages

  const MAX_CHILDREN: nat := 128

  /** A row of the node table. A file's bytes are the first `size` of the `cap` pages from page `at` on. */
  datatype Node = Node(used: bool, name: string, isDir: bool, size: nat, at: nat, cap: nat, parent: Option<nat>,
                       children: seq<nat>)

  function Blank(): Node { Node(false, [], false, 0, 0, 0, None, []) }

  // ---- names ----

  /** The first child of a name. */
  function KidOf(ns: seq<Node>, kids: seq<nat>, name: string): (r: Option<nat>)
    ensures r.Some? ==> r.value in kids && r.value < |ns| && ns[r.value].name == name
    ensures r.None? ==> forall c :: c in kids && c < |ns| ==> ns[c].name != name
  {
    if kids == [] then None
    else if kids[0] < |ns| && ns[kids[0]].name == name then Some(kids[0])
    else KidOf(ns, kids[1..], name)
  }

  /** Following names from a node down. */
  function Find(ns: seq<Node>, i: nat, parts: seq<string>): Option<nat>
    decreases |parts|
  {
    if parts == [] then Some(i)
    else if i >= |ns| then None
    else
      var c := KidOf(ns, ns[i].children, parts[0]);
      if c.None? then None else Find(ns, c.value, parts[1..])
  }

  ghost predicate KidOk(ns: seq<Node>, i: nat, c: nat) { 0 < c < |ns| && ns[c].used && ns[c].parent == Some(i) }

  ghost predicate KidsOk(ns: seq<Node>, i: nat, kids: seq<nat>) { forall c :: c in kids ==> KidOk(ns, i, c) }

  function NameAt(ns: seq<Node>, c: nat): string { if c < |ns| then ns[c].name else [] }

  ghost predicate Distinct(ns: seq<Node>, kids: seq<nat>) {
    forall j, k :: 0 <= j < k < |kids| ==> NameAt(ns, kids[j]) != NameAt(ns, kids[k])
  }

  ghost predicate NodeOk(ns: seq<Node>, i: nat)
    requires i < |ns|
  {
    && (if ns[i].isDir then ns[i].cap == 0 else ns[i].children == [])
    && |ns[i].children| <= MAX_CHILDREN
    && KidsOk(ns, i, ns[i].children) && Distinct(ns, ns[i].children)
    && (i > 0 ==> HasParent(ns, i))
  }

  ghost predicate HasParent(ns: seq<Node>, i: nat)
    requires i < |ns|
  {
    ns[i].parent.Some? && ns[i].parent.value < |ns| && ns[ns[i].parent.value].used
      && i in ns[ns[i].parent.value].children
  }

  /** Node 0 is the root; every other node is its parent's child, under a name no other child of that parent has. */
  ghost predicate Tree(ns: seq<Node>) {
    && |ns| > 0 && ns[0].used && ns[0].isDir && ns[0].parent.None?
    && forall i :: 0 <= i < |ns| && ns[i].used ==> NodeOk(ns, i)
  }

  /** A child is listed once. */
  lemma ListedOnce(ns: seq<Node>, i: nat, j: nat, k: nat)
    requires Tree(ns) && i < |ns| && ns[i].used && j < |ns[i].children| && k < |ns[i].children|
    requires ns[i].children[j] == ns[i].children[k]
    ensures j == k
  {
    assert NodeOk(ns, i);
    assert ns[i].children[j] in ns[i].children && KidOk(ns, i, ns[i].children[j]);
  }

  lemma KidNamed(ns: seq<Node>, i: nat, c: nat)
    requires Tree(ns) && i < |ns| && ns[i].used && c in ns[i].children
    ensures KidOk(ns, i, c) && KidOf(ns, ns[i].children, ns[c].name) == Some(c)
  {
    assert NodeOk(ns, i);
    var kids := ns[i].children;
    assert KidOk(ns, i, c);
    var r := KidOf(ns, kids, ns[c].name);
    assert r.Some?;
    assert KidOk(ns, i, r.value);
    var j :| 0 <= j < |kids| && kids[j] == c;
    var k :| 0 <= k < |kids| && kids[k] == r.value;
    assert j == k;
  }

  lemma KidUsed(ns: seq<Node>, i: nat, name: string)
    requires Tree(ns) && i < |ns| && ns[i].used
    ensures var c := KidOf(ns, ns[i].children, name); c.Some? ==> KidOk(ns, i, c.value) && ns[c.value].name == name
  {
    assert NodeOk(ns, i);
  }

  lemma {:induction false} FindUsed(ns: seq<Node>, i: nat, parts: seq<string>)
    requires Tree(ns) && i < |ns| && ns[i].used
    ensures var r := Find(ns, i, parts); r.Some? ==> r.value < |ns| && ns[r.value].used
    decreases |parts|
  {
    hide Tree, KidOf;
    if parts != [] {
      KidUsed(ns, i, parts[0]);
      var c := KidOf(ns, ns[i].children, parts[0]);
      if c.Some? {
        FindUsed(ns, c.value, parts[1..]);
      }
    }
  }

  /** The last name of a path is looked up where the others lead. */
  lemma {:induction false} FindLast(ns: seq<Node>, i: nat, parts: seq<string>, x: string)
    requires Tree(ns) && i < |ns| && ns[i].used
    ensures var p := Find(ns, i, parts);
      Find(ns, i, parts + [x]) == if p.None? || p.value >= |ns| then None else KidOf(ns, ns[p.value].children, x)
    decreases |parts|
  {
    hide Tree, KidOf;
    if parts == [] {
      assert ([] + [x])[1..] == [];
      var c := KidOf(ns, ns[i].children, x);
      assert c.Some? ==> Find(ns, c.value, []) == c;
    } else {
      assert (parts + [x])[0] == parts[0] && (parts + [x])[1..] == parts[1..] + [x];
      KidUsed(ns, i, parts[0]);
      var c := KidOf(ns, ns[i].children, parts[0]);
      if c.Some? {
        FindLast(ns, c.value, parts[1..], x);
      }
    }
  }

  /** What the last step of a path says about the node it leads to. */
  lemma LastStep(ns: seq<Node>, parts: seq<string>)
    requires Tree(ns) && parts != []
    ensures var front, k := Find(ns, 0, parts[..|parts| - 1]), Find(ns, 0, parts);
      k.Some? ==>
        && k.value < |ns| && k.value > 0 && front.Some? && ns[k.value].parent == front
        && ns[k.value].name == parts[|parts| - 1]
  {
    hide Tree, KidOf;
    var front, x := parts[..|parts| - 1], parts[|parts| - 1];
    assert parts == front + [x];
    RootUsed(ns);
    FindLast(ns, 0, front, x);
    FindUsed(ns, 0, front);
    if Find(ns, 0, parts).Some? {
      KidUsed(ns, Find(ns, 0, front).value, x);
    }
  }

  lemma RootUsed(ns: seq<Node>)
    requires Tree(ns)
    ensures |ns| > 0 && ns[0].used && ns[0].isDir && ns[0].parent.None?
  {}

  /** Two paths to one node are the same path. */
  lemma {:induction false} PathUnique(ns: seq<Node>, a: seq<string>, b: seq<string>)
    requires Tree(ns) && Find(ns, 0, a).Some? && Find(ns, 0, a) == Find(ns, 0, b)
    ensures a == b
    decreases |a|
  {
    hide Tree, KidOf;
    if a == [] {
      if b != [] {
        LastStep(ns, b);
      }
    } else if b == [] {
      LastStep(ns, a);
    } else {
      LastStep(ns, a);
      LastStep(ns, b);
      PathUnique(ns, a[..|a| - 1], b[..|b| - 1]);
      assert a == a[..|a| - 1] + [a[|a| - 1]] && b == b[..|b| - 1] + [b[|b| - 1]];
    }
  }

  // ---- a new node ----

  function WithChild(ns: seq<Node>, p: nat, c: nat, node: Node): seq<Node>
    requires p < |ns| && c < |ns|
  {
    ns[c := node][p := ns[p].(children := ns[p].children + [c])]
  }

  /** A node may be added under a directory that has room for it and no child of its name. */
  ghost predicate CanAdd(ns: seq<Node>, p: nat, c: nat, node: Node) {
    && Tree(ns) && p < |ns| && ns[p].used && ns[p].isDir && |ns[p].children| < MAX_CHILDREN
    && 0 < c < |ns| && !ns[c].used && node.used && node.parent == Some(p) && node.children == [] && node.cap == 0
    && KidOf(ns, ns[p].children, node.name).None?
  }

  lemma GrownKids(ns: seq<Node>, p: nat, c: nat, node: Node)
    requires CanAdd(ns, p, c, node)
    ensures var kids := ns[p].children + [c];
      KidsOk(WithChild(ns, p, c, node), p, kids) && Distinct(WithChild(ns, p, c, node), kids)
  {
    hide KidOf;
    var ns' := WithChild(ns, p, c, node);
    var kids := ns[p].children;
    assert NodeOk(ns, p);
    NoKid(ns, kids, node.name);
    assert forall d :: d in kids ==> KidOk(ns, p, d) && d != c;
    assert forall d :: d in kids ==> NameAt(ns', d) == NameAt(ns, d) && NameAt(ns, d) != node.name;
    assert NameAt(ns', c) == node.name;
    assert forall k :: 0 <= k < |kids| ==> kids[k] in kids;
  }

  /** What a node needs is unchanged where its own row, its children's and its parent's list of it are. */
  lemma StillOk(ns: seq<Node>, ns': seq<Node>, i: nat)
    requires |ns'| == |ns| && i < |ns| && NodeOk(ns, i)
    requires ns'[i] == ns[i].(size := ns'[i].size, at := ns'[i].at, cap := ns'[i].cap)
    requires (ns[i].isDir ==> ns'[i].cap == 0)
    requires forall d :: d in ns[i].children && 0 < d < |ns| ==>
      ns'[d].used == ns[d].used && ns'[d].name == ns[d].name && ns'[d].parent == ns[d].parent
    requires i > 0 ==> HasParent(ns', i)
    ensures NodeOk(ns', i)
  {
    assert forall d :: d in ns[i].children ==> KidOk(ns, i, d) && NameAt(ns', d) == NameAt(ns, d);
    assert forall k :: 0 <= k < |ns[i].children| ==> ns[i].children[k] in ns[i].children;
  }

  lemma NoKid(ns: seq<Node>, kids: seq<nat>, name: string)
    requires KidOf(ns, kids, name).None?
    ensures forall d :: d in kids && d < |ns| ==> ns[d].name != name
  {}

  lemma GrownTree(ns: seq<Node>, p: nat, c: nat, node: Node)
    requires CanAdd(ns, p, c, node)
    ensures Tree(WithChild(ns, p, c, node))
  {
    hide KidOf, KidsOk, Distinct;
    var ns' := WithChild(ns, p, c, node);
    GrownKids(ns, p, c, node);
    forall i | 0 <= i < |ns'| && ns'[i].used ensures NodeOk(ns', i) {
      if i == c {
        NoKids(ns', c);
        assert c in ns'[p].children;
      } else {
        assert NodeOk(ns, i);
        if i > 0 {
          var q := ns[i].parent.value;
          assert i in ns[q].children ==> i in ns'[q].children;
        }
        if i != p {
          KidsUsed(ns, i);
          StillOk(ns, ns', i);
        }
      }
    }
  }

  lemma NoKids(ns: seq<Node>, i: nat)
    ensures KidsOk(ns, i, []) && Distinct(ns, [])
  {}

  lemma KidsUsed(ns: seq<Node>, i: nat)
    requires i < |ns| && NodeOk(ns, i)
    ensures forall d :: d in ns[i].children ==> KidOk(ns, i, d)
  {}

  lemma {:induction false} KidsSame(ns: seq<Node>, ns': seq<Node>, kids: seq<nat>, name: string)
    requires |ns'| == |ns| && forall d :: d in kids && d < |ns| ==> ns'[d].name == ns[d].name
    ensures KidOf(ns', kids, name) == KidOf(ns, kids, name)
  {
    if kids != [] {
      assert kids[0] in kids;
      KidsSame(ns, ns', kids[1..], name);
    }
  }

  lemma {:induction false} KidsMore(ns: seq<Node>, kids: seq<nat>, c: nat, name: string)
    requires c < |ns|
    ensures KidOf(ns, kids + [c], name) ==
      if KidOf(ns, kids, name).Some? then KidOf(ns, kids, name) else if ns[c].name == name then Some(c) else None
  {
    if kids == [] {
      assert ([] + [c])[1..] == [];
    } else {
      assert (kids + [c])[0] == kids[0] && (kids + [c])[1..] == kids[1..] + [c];
      KidsMore(ns, kids[1..], c, name);
    }
  }

  lemma GrownKid(ns: seq<Node>, p: nat, c: nat, node: Node, i: nat, x: string)
    requires CanAdd(ns, p, c, node) && i < |ns| && ns[i].used
    ensures var ns' := WithChild(ns, p, c, node);
      KidOf(ns', ns'[i].children, x) == if i == p && x == node.name then Some(c) else KidOf(ns, ns[i].children, x)
  {
    hide KidOf;
    var ns' := WithChild(ns, p, c, node);
    assert NodeOk(ns, i);
    assert forall d :: d in ns[i].children ==> KidOk(ns, i, d) && d != c && ns'[d].name == ns[d].name;
    KidsSame(ns, ns', ns[i].children, x);
    if i == p {
      KidsMore(ns', ns[i].children, c, x);
    }
  }

  /** A new node adds one path and changes no other. */
  lemma {:induction false} GrownFind(ns: seq<Node>, p: nat, c: nat, node: Node, i: nat, parts: seq<string>)
    requires CanAdd(ns, p, c, node) && i < |ns| && ns[i].used
    ensures var ns' := WithChild(ns, p, c, node);
      Find(ns', i, parts) ==
        if parts != [] && parts[|parts| - 1] == node.name && Find(ns, i, parts[..|parts| - 1]) == Some(p) then Some(c)
        else Find(ns, i, parts)
    decreases |parts|
  {
    hide KidOf, Tree;
    var ns' := WithChild(ns, p, c, node);
    if parts != [] {
      var x, rest := parts[0], parts[1..];
      GrownKid(ns, p, c, node, i, x);
      if i == p && x == node.name {
        NoneUnder(ns', c, rest);
        if rest != [] {
          assert parts[..|parts| - 1][0] == x;
        }
      } else {
        KidUsed(ns, i, x);
        var d := KidOf(ns, ns[i].children, x);
        if d.Some? {
          GrownFind(ns, p, c, node, d.value, rest);
        }
        if rest != [] {
          assert parts[..|parts| - 1][0] == x && parts[..|parts| - 1][1..] == rest[..|rest| - 1];
        } else {
          assert parts[..|parts| - 1] == [];
        }
      }
    }
  }

  lemma NoneUnder(ns: seq<Node>, c: nat, parts: seq<string>)
    requires c < |ns| && ns[c].children == []
    ensures Find(ns, c, parts) == if parts == [] then Some(c) else None
  {}

  // ---- a node taken away ----

  /** A list without the entry at a place; later ones move up. */
  function Removed(kids: seq<nat>, k: nat): (r: seq<nat>)
    requires k < |kids|
    ensures |r| == |kids| - 1 && forall j :: 0 <= j < |r| ==> r[j] == kids[if j < k then j else j + 1]
  {
    kids[..k] + kids[k + 1..]
  }

  lemma RemovedHas(kids: seq<nat>, k: nat)
    requires k < |kids| && forall j :: 0 <= j < |kids| && kids[j] == kids[k] ==> j == k
    ensures forall d :: d in Removed(kids, k) <==> d in kids && d != kids[k]
  {
    hide Removed;
    var kids' := Removed(kids, k);
    forall d | d in kids' ensures d in kids && d != kids[k] {
      var j :| 0 <= j < |kids'| && kids'[j] == d;
      assert kids[if j < k then j else j + 1] == d;
    }
    forall d | d in kids && d != kids[k] ensures d in kids' {
      var j :| 0 <= j < |kids| && kids[j] == d;
      assert j != k;
      assert if j < k then kids'[j] == d else kids'[j - 1] == d;
    }
  }

  lemma RemovedDistinct(ns: seq<Node>, kids: seq<nat>, k: nat)
    requires k < |kids| && Distinct(ns, kids)
    ensures Distinct(ns, Removed(kids, k))
  {
    hide Removed;
  }

  function Without(ns: seq<Node>, p: nat, k: nat, c: nat): seq<Node>
    requires p < |ns| && c < |ns| && k < |ns[p].children|
  {
    ns[p := ns[p].(children := Removed(ns[p].children, k))][c := ns[c].(used := false)]
  }

  /** A node without children may be taken away. */
  ghost predicate CanRemove(ns: seq<Node>, p: nat, k: nat, c: nat) {
    && Tree(ns) && 0 < c < |ns| && ns[c].used && ns[c].children == [] && ns[c].parent == Some(p)
    && p < |ns| && p != c && ns[p].used && k < |ns[p].children| && ns[p].children[k] == c
  }

  lemma PrunedKids(ns: seq<Node>, p: nat, k: nat, c: nat)
    requires CanRemove(ns, p, k, c)
    ensures forall d :: d in Without(ns, p, k, c)[p].children <==> d in ns[p].children && d != c
  {
    hide KidOf, Removed, Tree;
    var kids := ns[p].children;
    forall j | 0 <= j < |kids| && kids[j] == kids[k] ensures j == k {
      ListedOnce(ns, p, j, k);
    }
    RemovedHas(kids, k);
  }

  lemma PrunedParent(ns: seq<Node>, p: nat, k: nat, c: nat)
    requires CanRemove(ns, p, k, c)
    ensures var ns' := Without(ns, p, k, c);
      KidsOk(ns', p, ns'[p].children) && Distinct(ns', ns'[p].children)
  {
    hide KidOf, Removed;
    var ns' := Without(ns, p, k, c);
    var kids := ns[p].children;
    PrunedKids(ns, p, k, c);
    assert NodeOk(ns, p);
    RemovedDistinct(ns, kids, k);
    assert forall d :: d in ns'[p].children ==> KidOk(ns, p, d) && d != c;
    SameNames(ns, ns', ns'[p].children);
  }

  lemma SameNames(ns: seq<Node>, ns': seq<Node>, kids: seq<nat>)
    requires Distinct(ns, kids) && forall d :: d in kids ==> NameAt(ns', d) == NameAt(ns, d)
    ensures Distinct(ns', kids)
  {
    assert forall j :: 0 <= j < |kids| ==> kids[j] in kids;
  }

  lemma PrunedTree(ns: seq<Node>, p: nat, k: nat, c: nat)
    requires CanRemove(ns, p, k, c)
    ensures Tree(Without(ns, p, k, c))
  {
    hide KidOf, KidsOk, Distinct, Removed;
    var ns' := Without(ns, p, k, c);
    PrunedKids(ns, p, k, c);
    PrunedParent(ns, p, k, c);
    forall i | 0 <= i < |ns'| && ns'[i].used ensures NodeOk(ns', i) {
      assert NodeOk(ns, i);
      if i > 0 {
        var q := ns[i].parent.value;
        assert q != c;
        assert i in ns'[q].children;
      }
      if i != p {
        KidsUsed(ns, i);
        assert c !in ns[i].children;
        StillOk(ns, ns', i);
      }
    }
  }

  lemma {:induction false} KidsFewer(ns: seq<Node>, kids: seq<nat>, k: nat, name: string)
    requires k < |kids| && kids[k] < |ns| && ns[kids[k]].name != name
    ensures KidOf(ns, Removed(kids, k), name) == KidOf(ns, kids, name)
  {
    hide Removed;
    if k == 0 {
      assert Removed(kids, 0) == kids[1..];
    } else {
      KidsFewer(ns, kids[1..], k - 1, name);
      assert Removed(kids, k)[1..] == Removed(kids[1..], k - 1);
    }
  }

  lemma PrunedKid(ns: seq<Node>, p: nat, k: nat, c: nat, i: nat, x: string)
    requires CanRemove(ns, p, k, c) && i < |ns| && ns[i].used && i != c
    ensures var ns' := Without(ns, p, k, c); var r := KidOf(ns, ns[i].children, x);
      KidOf(ns', ns'[i].children, x) == if r == Some(c) then None else r
  {
    hide KidOf, Removed;
    var ns' := Without(ns, p, k, c);
    KidsSame(ns, ns', ns'[i].children, x);
    KidUsed(ns, i, x);
    if i == p {
      PrunedKids(ns, p, k, c);
      KidNamed(ns, p, c);
      if ns[c].name != x {
        KidsFewer(ns, ns[p].children, k, x);
      } else {
        NoOther(ns, p, c, ns'[p].children);
      }
    }
  }

  lemma NoOther(ns: seq<Node>, p: nat, c: nat, kids: seq<nat>)
    requires Tree(ns) && p < |ns| && ns[p].used && c in ns[p].children && c < |ns|
    requires forall d :: d in kids ==> d in ns[p].children && d != c
    ensures KidOf(ns, kids, ns[c].name).None?
  {
    var r := KidOf(ns, kids, ns[c].name);
    if r.Some? {
      KidNamed(ns, p, c);
      KidNamed(ns, p, r.value);
    }
  }

  /** Taking a node away takes its path away and changes no other. */
  lemma {:induction false} PrunedFind(ns: seq<Node>, p: nat, k: nat, c: nat, i: nat, parts: seq<string>)
    requires CanRemove(ns, p, k, c) && i < |ns| && ns[i].used && i != c
    ensures var r := Find(ns, i, parts); Find(Without(ns, p, k, c), i, parts) == if r == Some(c) then None else r
    decreases |parts|
  {
    hide KidOf, Tree;
    if parts != [] {
      PrunedKid(ns, p, k, c, i, parts[0]);
      KidUsed(ns, i, parts[0]);
      var d := KidOf(ns, ns[i].children, parts[0]);
      if d == Some(c) {
        NoneUnder(ns, c, parts[1..]);
      } else if d.Some? {
        PrunedFind(ns, p, k, c, d.value, parts[1..]);
      }
    }
  }

  // ---- changes of a file's data ----

  /** Row `i` may have other data; nothing else changes. */
  ghost predicate OnlyData(ns: seq<Node>, ns': seq<Node>, i: nat) {
    && |ns'| == |ns| && i < |ns|
    && ns'[i] == ns[i].(size := ns'[i].size, at := ns'[i].at, cap := ns'[i].cap)
    && ns' == ns[i := ns'[i]]
  }

  lemma {:induction false} DataFind(ns: seq<Node>, ns': seq<Node>, i: nat, j: nat, parts: seq<string>)
    requires OnlyData(ns, ns', i)
    ensures Find(ns', j, parts) == Find(ns, j, parts)
    decreases |parts|
  {
    if parts != [] && j < |ns| {
      KidsSame(ns, ns', ns[j].children, parts[0]);
      var c := KidOf(ns, ns[j].children, parts[0]);
      if c.Some? {
        DataFind(ns, ns', i, c.value, parts[1..]);
      }
    }
  }

  lemma DataTree(ns: seq<Node>, ns': seq<Node>, i: nat)
    requires OnlyData(ns, ns', i) && Tree(ns) && ns[i].used && !ns[i].isDir
    ensures Tree(ns')
  {
    hide KidOf;
    forall j | 0 <= j < |ns'| && ns'[j].used ensures NodeOk(ns', j) {
      assert NodeOk(ns, j);
      StillOk(ns, ns', j);
    }
  }

  /** Every node in use has a path. */
  ghost predicate Rooted(ns: seq<Node>) {
    forall i :: 0 <= i < |ns| && ns[i].used ==> HasPath(ns, i)
  }

  ghost predicate HasPath(ns: seq<Node>, i: nat) { exists parts :: Find(ns, 0, parts) == Some(i) }
}
