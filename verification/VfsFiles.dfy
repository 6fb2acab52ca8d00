/** The bytes of files in memory, the pages they own, and the file system as a map from paths to what is there. */
module VfsFiles {
  import opened Wrappers
  import opened Bytes
  import opened Pages
  import opened VfsTree

  // ---- pages ----

  ghost predicate Owns(ns: seq<Node>, i: nat, k: nat) { i < |ns| && ns[i].used && ns[i].at <= k < ns[i].at + ns[i].cap }

  ghost predicate Owned(ns: seq<Node>, k: nat) { exists i: nat :: Owns(ns, i, k) }

  /** No page has two owners. */
  ghost predicate Apart(ns: seq<Node>) { forall i: nat, j: nat, k: nat :: Owns(ns, i, k) && Owns(ns, j, k) ==> i == j }

  /** A page is taken if and only if a file owns it or it is one of those others have; never both. */
  ghost predicate Accounts(ns: seq<Node>, bits: seq<bool>, foreign: seq<bool>) {
    && |foreign| == |bits| && Apart(ns)
    && (forall i: nat, k: nat :: Owns(ns, i, k) ==> k < |bits| && bits[k] && !foreign[k])
    && (forall k: nat :: k < |bits| ==> bits[k] == (foreign[k] || Owned(ns, k)))
  }

  /** The table with row `i` changed so that it owns another run. */
  lemma Moved(ns: seq<Node>, ns': seq<Node>, i: nat, bits: seq<bool>, foreign: seq<bool>)
    requires Accounts(ns, bits, foreign) && OnlyData(ns, ns', i) && ns[i].used
    requires FreeRun(bits, ns'[i].at, ns'[i].cap)
    ensures Accounts(ns', WithRun(WithRun(bits, ns'[i].at, ns'[i].cap, true), ns[i].at, ns[i].cap, false), foreign)
  {
    hide WithRun;
    var more := WithRun(bits, ns'[i].at, ns'[i].cap, true);
    var bits' := WithRun(more, ns[i].at, ns[i].cap, false);
    forall j: nat, k: nat ensures j != i ==> (Owns(ns', j, k) <==> Owns(ns, j, k)) {}
    forall j: nat, k: nat | Owns(ns', j, k) ensures k < |bits| && bits'[k] && !foreign[k] && (j == i || Owns(ns, j, k))
    {
      assert !Owns(ns, i, k);
      assert k < |bits| ==> bits[k] == (foreign[k] || Owned(ns, k));
    }
    forall k: nat | k < |bits| ensures bits'[k] == (foreign[k] || Owned(ns', k)) {
      assert Owns(ns, i, k) ==> !foreign[k];
      if Owned(ns', k) {
        var j: nat :| Owns(ns', j, k);
      } else if !foreign[k] {
        assert !Owns(ns', i, k);
        NotOwned(ns, ns', i, k);
      }
    }
    forall j: nat, j': nat, k: nat | Owns(ns', j, k) && Owns(ns', j', k) ensures j == j' {
      assert Owns(ns, j, k) ==> bits[k];
      assert Owns(ns, j', k) ==> bits[k];
    }
  }

  lemma NotOwned(ns: seq<Node>, ns': seq<Node>, i: nat, k: nat)
    requires forall j: nat :: j != i && Owns(ns, j, k) ==> Owns(ns', j, k)
    requires !Owned(ns', k)
    ensures Owned(ns, k) ==> Owns(ns, i, k)
  {
    if Owned(ns, k) {
      var j: nat :| Owns(ns, j, k);
    }
  }

  /** Row `c` no longer owns anything. */
  lemma Released(ns: seq<Node>, ns': seq<Node>, c: nat, bits: seq<bool>, foreign: seq<bool>)
    requires Accounts(ns, bits, foreign) && c < |ns| && ns[c].used
    requires forall j: nat, k: nat :: Owns(ns', j, k) <==> j != c && Owns(ns, j, k)
    ensures Accounts(ns', WithRun(bits, ns[c].at, ns[c].cap, false), foreign)
  {
    hide WithRun;
    var bits' := WithRun(bits, ns[c].at, ns[c].cap, false);
    forall j: nat, k: nat | Owns(ns', j, k) ensures k < |bits| && bits'[k] && !foreign[k] {
      assert Owns(ns, c, k) && Owns(ns, j, k) ==> c == j;
    }
    forall k: nat | k < |bits| ensures bits'[k] == (foreign[k] || Owned(ns', k)) {
      assert Owns(ns, c, k) ==> !foreign[k];
      if Owned(ns', k) {
        var j: nat :| Owns(ns', j, k);
      } else if !foreign[k] {
        NotOwned(ns, ns', c, k);
      }
    }
  }

  /** The same owners, the same account. */
  lemma SameOwners(ns: seq<Node>, ns': seq<Node>, bits: seq<bool>, foreign: seq<bool>)
    requires Accounts(ns, bits, foreign)
    requires forall j: nat, k: nat :: Owns(ns', j, k) <==> Owns(ns, j, k)
    ensures Accounts(ns', bits, foreign)
  {
    forall k: nat | k < |bits| ensures bits[k] == (foreign[k] || Owned(ns', k)) {
      if Owned(ns, k) {
        var j: nat :| Owns(ns, j, k);
        assert Owns(ns', j, k);
      }
      if Owned(ns', k) {
        var j: nat :| Owns(ns', j, k);
        assert Owns(ns, j, k);
      }
    }
  }

  /** The runs of two files do not meet. */
  lemma RunsApart(ns: seq<Node>, i: nat, j: nat)
    requires Apart(ns) && i < |ns| && j < |ns| && i != j && ns[i].used && ns[j].used && ns[i].cap > 0 && ns[j].cap > 0
    ensures ns[i].at + ns[i].cap <= ns[j].at || ns[j].at + ns[j].cap <= ns[i].at
  {
    var k := if ns[i].at < ns[j].at then ns[j].at else ns[i].at;
    assert Owns(ns, i, k) && Owns(ns, j, k) ==> i == j;
  }

  /** A free run meets no file's. */
  lemma FreeApart(ns: seq<Node>, bits: seq<bool>, foreign: seq<bool>, j: nat, q: nat, n: nat)
    requires Accounts(ns, bits, foreign) && FreeRun(bits, q, n) && j < |ns| && ns[j].used && ns[j].cap > 0 && n > 0
    ensures q + n <= ns[j].at || ns[j].at + ns[j].cap <= q
  {
    var k := if q < ns[j].at then ns[j].at else q;
    assert Owns(ns, j, k) ==> bits[k];
  }

  /** A file's pages lie in memory. */
  lemma InMemory(ns: seq<Node>, bits: seq<bool>, foreign: seq<bool>, i: nat)
    requires Accounts(ns, bits, foreign) && i < |ns| && ns[i].used
    ensures ns[i].cap > 0 ==> ns[i].at + ns[i].cap <= |bits|
  {
    if ns[i].cap > 0 {
      assert Owns(ns, i, ns[i].at + ns[i].cap - 1);
    }
  }

  // ---- bytes ----

  /** A file's bytes. */
  function Data(n: Node, mem: seq<byte>): seq<byte> {
    if n.size > 0 && Size(n.at) + n.size <= |mem| then mem[Size(n.at)..Size(n.at) + n.size] else []
  }

  /** Files are no longer than their pages. */
  ghost predicate Held(ns: seq<Node>) { forall i :: 0 <= i < |ns| && ns[i].used ==> ns[i].size <= Size(ns[i].cap) }

  /** Memory changed in a run of pages only. */
  ghost predicate ChangedIn(mem: seq<byte>, mem': seq<byte>, q: nat, n: nat) {
    |mem'| == |mem| && forall a :: 0 <= a < |mem| && !(Size(q) <= a < Size(q + n)) ==> mem'[a] == mem[a]
  }

  lemma DataKept(n: Node, mem: seq<byte>, mem': seq<byte>, q: nat, m: nat)
    requires ChangedIn(mem, mem', q, m) && n.size <= Size(n.cap)
    requires n.cap > 0 && m > 0 ==> q + m <= n.at || n.at + n.cap <= q
    ensures Data(n, mem') == Data(n, mem)
  {
    if n.size > 0 && m > 0 {
      if q + m <= n.at {
        assert Size(q + m) <= Size(n.at);
      } else {
        assert Size(n.at + n.cap) <= Size(q) && Size(n.at + n.cap) == Size(n.at) + Size(n.cap);
      }
    }
  }

  // ---- paths ----

  datatype Entry = Gone | Dir | File(bytes: seq<byte>)

  function EntryOf(n: Node, mem: seq<byte>): Entry { if n.isDir then Dir else File(Data(n, mem)) }

  /** What a path leads to. */
  function View(ns: seq<Node>, mem: seq<byte>, path: seq<string>): Entry {
    var i := Find(ns, 0, path);
    if i.None? || i.value >= |ns| then Gone else EntryOf(ns[i.value], mem)
  }

  lemma ViewGrown(ns: seq<Node>, mem: seq<byte>, p: nat, c: nat, node: Node, front: seq<string>, q: seq<string>)
    requires CanAdd(ns, p, c, node) && Find(ns, 0, front) == Some(p)
    ensures View(WithChild(ns, p, c, node), mem, q) ==
      if q == front + [node.name] then EntryOf(node, mem) else View(ns, mem, q)
  {
    hide KidOf, Data, Tree;
    RootUsed(ns);
    GrownFind(ns, p, c, node, 0, q);
    if q != [] {
      assert q == q[..|q| - 1] + [q[|q| - 1]];
      if q[|q| - 1] == node.name && Find(ns, 0, q[..|q| - 1]) == Some(p) {
        PathUnique(ns, q[..|q| - 1], front);
      }
    }
    assert (front + [node.name])[..|front|] == front;
    FindUsed(ns, 0, q);
  }

  lemma ViewPruned(ns: seq<Node>, mem: seq<byte>, p: nat, k: nat, c: nat, path: seq<string>, q: seq<string>)
    requires CanRemove(ns, p, k, c) && Find(ns, 0, path) == Some(c)
    ensures View(Without(ns, p, k, c), mem, q) == if q == path then Gone else View(ns, mem, q)
  {
    hide KidOf, Tree, Removed;
    RootUsed(ns);
    PrunedFind(ns, p, k, c, 0, q);
    if Find(ns, 0, q) == Some(c) {
      PathUnique(ns, q, path);
    }
    FindUsed(ns, 0, q);
  }

  /** One file's data changed, in memory and in its row; every other file's bytes are what they were. */
  lemma ViewWritten(ns: seq<Node>, ns': seq<Node>, mem: seq<byte>, mem': seq<byte>, i: nat, path: seq<string>,
                    q: seq<string>)
    requires Tree(ns) && OnlyData(ns, ns', i) && ns[i].used && !ns[i].isDir && Find(ns, 0, path) == Some(i)
    requires forall j :: 0 <= j < |ns| && j != i && ns[j].used ==> Data(ns[j], mem') == Data(ns[j], mem)
    ensures View(ns', mem', q) == if q == path then File(Data(ns'[i], mem')) else View(ns, mem, q)
  {
    hide KidOf, Data, Tree;
    RootUsed(ns);
    DataFind(ns, ns', i, 0, q);
    FindUsed(ns, 0, q);
    if Find(ns, 0, q) == Some(i) {
      PathUnique(ns, q, path);
    }
  }

  // ---- every node has a path ----

  lemma RootedGrown(ns: seq<Node>, p: nat, c: nat, node: Node, front: seq<string>)
    requires CanAdd(ns, p, c, node) && Rooted(ns) && Find(ns, 0, front) == Some(p)
    ensures Rooted(WithChild(ns, p, c, node))
  {
    hide KidOf, Tree;
    RootUsed(ns);
    var ns' := WithChild(ns, p, c, node);
    forall i | 0 <= i < |ns'| && ns'[i].used ensures HasPath(ns', i) {
      if i == c {
        var path := front + [node.name];
        assert path[..|path| - 1] == front;
        GrownFind(ns, p, c, node, 0, path);
        assert Find(ns', 0, path) == Some(i);
      } else {
        assert HasPath(ns, i);
        var path :| Find(ns, 0, path) == Some(i);
        GrownFind(ns, p, c, node, 0, path);
        if path != [] && path[|path| - 1] == node.name && Find(ns, 0, path[..|path| - 1]) == Some(p) {
          LastKid(ns, p, path, node.name);
        }
        assert Find(ns', 0, path) == Some(i);
      }
    }
  }

  lemma LastKid(ns: seq<Node>, p: nat, path: seq<string>, name: string)
    requires Tree(ns) && p < |ns| && path != [] && path[|path| - 1] == name
    requires Find(ns, 0, path[..|path| - 1]) == Some(p)
    ensures Find(ns, 0, path) == KidOf(ns, ns[p].children, name)
  {
    hide KidOf, Tree;
    RootUsed(ns);
    assert path == path[..|path| - 1] + [name];
    FindLast(ns, 0, path[..|path| - 1], name);
  }

  lemma RootedPruned(ns: seq<Node>, p: nat, k: nat, c: nat)
    requires CanRemove(ns, p, k, c) && Rooted(ns)
    ensures Rooted(Without(ns, p, k, c))
  {
    hide KidOf, Tree;
    RootUsed(ns);
    var ns' := Without(ns, p, k, c);
    forall i | 0 <= i < |ns'| && ns'[i].used ensures HasPath(ns', i) {
      assert HasPath(ns, i);
      var path :| Find(ns, 0, path) == Some(i);
      PrunedFind(ns, p, k, c, 0, path);
      assert Find(ns', 0, path) == Some(i);
    }
  }

  lemma RootedData(ns: seq<Node>, ns': seq<Node>, i: nat)
    requires OnlyData(ns, ns', i) && Rooted(ns)
    ensures Rooted(ns')
  {
    forall j | 0 <= j < |ns'| && ns'[j].used ensures HasPath(ns', j) {
      assert HasPath(ns, j);
      var path :| Find(ns, 0, path) == Some(j);
      DataFind(ns, ns', i, 0, path);
      assert Find(ns', 0, path) == Some(j);
    }
  }
}
