/** Steps that change which files and directories a volume has. */
module FatDirSteps {
  import opened Bytes
  import opened FatTable
  import opened FatChain
  import opened FatFile
  import opened FatDir
  import opened FatState
  import opened FatSteps

  /** Exactly the chain `ch` was given back; nothing outside the table changed. */
  ghost predicate Released(g: Geometry, d: Disk, d': Disk, ch: seq<nat>) {
    OnlyFat(g, d, d') && Mirrored(g, d') && Table(g, d') == Cleared(Table(g, d), ch)
  }

  lemma ReleasedChains(g: Geometry, t: seq<nat>, nodes: Nodes, o: Owner, nodes': Nodes)
    requires g.Valid() && ChainsOk(g, t, nodes) && InRange(g, t) && o in nodes
    requires forall x :: x in nodes' ==> x in nodes && ((nodes'[x] == nodes[x] && x != o) || nodes'[x].ch == [])
    ensures ChainsOk(g, Cleared(t, nodes[o].ch), nodes') && InRange(g, Cleared(t, nodes[o].ch))
  {
    var t' := Cleared(t, nodes[o].ch);
    forall x | x in nodes' ensures ChainOk(g, t', nodes'[x].ch) {
      if nodes'[x].ch != [] {
        assert Disjoint(nodes[x].ch, nodes[o].ch);
        ChainFrame(g, t, t', nodes[x].ch);
      }
    }
  }

  /** Data and directory sectors are not part of the table. */
  lemma ReleasedKeeps(g: Geometry, d: Disk, d': Disk, fds: seq<Fd>, nodes: Nodes)
    requires Inv(g, d, fds, nodes) && OnlyFat(g, d, d')
    ensures EntriesOk(g, d', fds, nodes) && Complete(g, d', nodes) && DirsOk(g, d', nodes)
    ensures FilesKept(g, d, nodes, d', nodes, {}) && DirsKept(g, d, nodes, d', nodes, {})
  {
    hide EntriesOk, Complete, DirsOk, Mirrored, InRange, Table, DirNames, FdsOk, Content;
    AllInVolume(g, d, nodes);
    assert forall s :: 0 <= s < g.tot && InDir(g, nodes, s) ==> d'[s] == d[s];
    EntriesFrame(g, d, d', fds, nodes);
    hide ChainsOk, InDir;
    forall x | x in nodes && !nodes[x].dir ensures FileBytes(g, d', nodes[x]) == FileBytes(g, d, nodes[x]) {
      ContentFrame(g, d, d', nodes[x].ch, nodes[x].size);
    }
  }

  /** An open file emptied: its chain is free again and its descriptor stands at 0. */
  lemma TruncStep(g: Geometry, d: Disk, d': Disk, fds: seq<Fd>, nodes: Nodes, i: nat, o: Owner, f: Fd, n: Node)
    requires Inv(g, d, fds, nodes) && i < |fds| && OpenOn(fds[i], o) && fds[i].flags.write
    requires Released(g, d, d', nodes[o].ch)
    requires n == Node(false, [], 0) && f == fds[i].(start := 0, size := 0, pos := 0)
    ensures Inv(g, d', fds[i := f], nodes[o := n])
    ensures FilesKept(g, d, nodes, d', nodes[o := n], {o}) && DirsKept(g, d, nodes, d', nodes[o := n], {})
  {
    hide ChainsOk, InRange, Mirrored, Complete, DirsOk, EntriesOk, DirNames, FileBytes, Table, Cleared;
    ReleasedKeeps(g, d, d', fds, nodes);
    ReleasedChains(g, Table(g, d), nodes, o, nodes[o := n]);
    assert Fits(g, d') && o.At? && Proper(g, o, n);
    OpenFileChanges(g, d', fds, nodes, i, o, f, n);
  }

  // ---- creating an entry ----

  /** A node that may be entered into the volume: nobody else's clusters and, for a directory, nothing in it yet. */
  ghost predicate Enterable(g: Geometry, d: Disk, nodes: Nodes, o: Owner, n: Node) {
    && Proper(g, o, n) && ChainOk(g, Table(g, d), n.ch)
    && (forall x :: x in nodes ==> Disjoint(nodes[x].ch, n.ch) && Disjoint(n.ch, nodes[x].ch))
    && (n.dir ==> DirOk(d, DirSecs(g, o, n.ch)) && HoldsNothing(d, DirSecs(g, o, n.ch)))
  }

  /** No entry but links and labels. */
  ghost predicate HoldsNothing(d: Disk, secs: seq<nat>) {
    forall k :: 0 <= k < |secs| * PER_SEC && Live(Ent(d, secs, k)) ==> !Plain(Ent(d, secs, k))
  }

  lemma EnteredChains(g: Geometry, t: seq<nat>, nodes: Nodes, o: Owner, n: Node)
    requires ChainsOk(g, t, nodes) && o !in nodes && ChainOk(g, t, n.ch)
    requires forall x :: x in nodes ==> Disjoint(nodes[x].ch, n.ch) && Disjoint(n.ch, nodes[x].ch)
    ensures ChainsOk(g, t, nodes[o := n])
  {
    hide ChainOk, Disjoint;
  }

  lemma EnteredShape(g: Geometry, nodes: Nodes, o: Owner, n: Node)
    requires Shape(g, nodes) && o !in nodes && Proper(g, o, n) && o.At? && InDir(g, nodes, o.sec)
    ensures Shape(g, nodes[o := n])
    ensures forall s :: InDir(g, nodes, s) ==> InDir(g, nodes[o := n], s)
    ensures forall s :: InDir(g, nodes[o := n], s) ==> InDir(g, nodes, s) || (n.dir && InNode(g, o, n, s))
  {
    hide Proper, InNode, InDir;
    EnteredDirs(g, nodes, o, n);
  }

  lemma EnteredDirs(g: Geometry, nodes: Nodes, o: Owner, n: Node)
    requires o !in nodes
    ensures forall s :: InDir(g, nodes, s) ==> InDir(g, nodes[o := n], s)
    ensures forall s :: InDir(g, nodes[o := n], s) ==> InDir(g, nodes, s) || (n.dir && InNode(g, o, n, s))
  {
    hide InNode;
    forall s | InDir(g, nodes, s) ensures InDir(g, nodes[o := n], s) {
      var x :| x in nodes && nodes[x].dir && InNode(g, x, nodes[x], s);
      assert x in nodes[o := n] && nodes[o := n][x].dir && InNode(g, x, nodes[o := n][x], s);
    }
  }

  lemma EnteredEntries(g: Geometry, d: Disk, fds: seq<Fd>, nodes: Nodes, o: Owner, n: Node, e: seq<byte>, d': Disk)
    requires EntriesOk(g, d, fds, nodes) && Shape(g, nodes) && |d| == g.tot
    requires o !in nodes && o.At? && o.sec < |d| && o.off % 32 == 0 && o.off < SEC && |e| == 32
    requires d' == EntryWritten(d, o.sec, o.off, e)
    requires Live(e) && Plain(e) && (IsDirAttr(e) <==> n.dir)
    requires FirstClus(g, e) == Head(n.ch) && (!n.dir ==> FileSize(e) == n.size)
    ensures EntriesOk(g, d', fds, nodes[o := n])
  {
    OtherEntries(d, o.sec, o.off, e);
    hide InDir, Writing, Live, Plain, IsDirAttr, FirstClus, FileSize, EntryWritten, EntOf;
    forall x | x in nodes[o := n] && x.At?
      ensures Listed(d', x, nodes[o := n][x]) && (Writing(fds, x) || Tied(g, d', x, nodes[o := n][x]))
    {
      if x != o {
        assert Proper(g, x, nodes[x]);
        assert EntOf(d', x.sec, x.off) == EntOf(d, x.sec, x.off);
      }
    }
  }

  lemma EnteredComplete(g: Geometry, d: Disk, nodes: Nodes, o: Owner, n: Node, e: seq<byte>, d': Disk)
    requires Fits(g, d) && Complete(g, d, nodes)
    requires o !in nodes && o.At? && o.sec < |d| && o.off % 32 == 0 && o.off < SEC && |e| == 32
    requires d' == EntryWritten(d, o.sec, o.off, e)
    requires forall s :: InDir(g, nodes[o := n], s) ==> InDir(g, nodes, s) || (n.dir && InNode(g, o, n, s))
    requires n.dir ==> InVolume(g, n.ch) && !FlatRoot(g, o) && HoldsNothing(d, DirSecs(g, o, n.ch))
    ensures Complete(g, d', nodes[o := n])
  {
    OtherEntries(d, o.sec, o.off, e);
    hide InDir, Live, Plain, EntryWritten, EntOf, Fits;
    assert g.Valid() by { FitsValid(g, d); }
    forall s, off | 0 <= s < g.tot && 0 <= off < SEC && off % 32 == 0 && InDir(g, nodes[o := n], s) &&
                    Live(EntOf(d', s, off)) && Plain(EntOf(d', s, off))
      ensures At(s, off) in nodes[o := n]
    {
      if At(s, off) != o {
        assert |d| == g.tot by { assert Fits(g, d); FitsSize(g, d); }
        assert EntOf(d', s, off) == EntOf(d, s, off);
        if !InDir(g, nodes, s) {
          hide InNode;
          var k := SlotIndex(g, o, n, s, off);
          SlotEnt(d, DirSecs(g, o, n.ch), k);
          assert false;
        }
      }
    }
  }

  lemma FitsSize(g: Geometry, d: Disk)
    requires Fits(g, d)
    ensures |d| == g.tot
  {
  }

  lemma SlotEnt(d: Disk, secs: seq<nat>, k: nat)
    requires k < |secs| * PER_SEC
    ensures SlotOf(secs, k).sec == secs[k / PER_SEC] && SlotOf(secs, k).off == k % PER_SEC * 32
    ensures Ent(d, secs, k) == EntOf(d, SlotOf(secs, k).sec, SlotOf(secs, k).off)
  {
  }

  /** Entering a fresh name into the first free slot of directory `x` adds that name and that node, and nothing else. */
  lemma CreateStep(g: Geometry, d: Disk, fds: seq<Fd>, nodes: Nodes, x: Owner, k: nat, o: Owner, e: seq<byte>, n: Node,
                   d': Disk)
    requires Inv(g, d, fds, nodes) && x in nodes && nodes[x].dir
    requires FirstFree(d, DirSecs(g, x, nodes[x].ch), k) && o == SlotOf(DirSecs(g, x, nodes[x].ch), k) && o.sec < |d|
    requires |e| == 32 && d' == EntryWritten(d, o.sec, o.off, e)
    requires Live(e) && Plain(e) && (IsDirAttr(e) <==> n.dir)
    requires FirstClus(g, e) == Head(n.ch) && (!n.dir ==> FileSize(e) == n.size)
    requires NameOf(e) !in DirNames(g, d, x, nodes[x])
    requires Enterable(g, d, nodes, o, n)
    ensures Inv(g, d', fds, nodes[o := n]) && o !in nodes && Table(g, d') == Table(g, d)
    ensures DirNames(g, d', x, nodes[x]) == DirNames(g, d, x, nodes[x])[NameOf(e) := k]
    ensures FilesKept(g, d, nodes, d', nodes[o := n], {}) && DirsKept(g, d, nodes, d', nodes[o := n], {x})
  {
    hide ChainsOk, InRange, Mirrored, Complete, DirsOk, EntriesOk, FileBytes, Table, FdsOk, Live, Plain, IsDirAttr,
         FirstClus, FileSize, EntryWritten, DirSecs, ChainOk, Shape, Names, InNode, DirOk, EntOf, Ent, NameOf,
         HoldsNothing;
    CreateWhere(g, d, fds, nodes, x, k, o);
    EntryWrite(g, d, nodes, x, k, e, o, d');
    EntryCreated(d, d', DirSecs(g, x, nodes[x].ch), k, e);
    assert InDir(g, nodes, o.sec);
    EnteredShape(g, nodes, o, n);
    EnteredChains(g, Table(g, d), nodes, o, n);
    EnteredEntries(g, d, fds, nodes, o, n, e, d');
    assert n.dir ==> InVolume(g, n.ch) && !FlatRoot(g, o) by { EnterableVolume(g, d, nodes, o, n); }
    EnteredComplete(g, d, nodes, o, n, e, d');
    CreateElsewhere(g, d, fds, nodes, x, k, o, e, n, d');
    EnteredFds(fds, nodes, o, n);
  }

  lemma EnteredFds(fds: seq<Fd>, nodes: Nodes, o: Owner, n: Node)
    requires FdsOk(fds, nodes) && o !in nodes
    ensures FdsOk(fds, nodes[o := n])
  {
  }

  lemma EnterableVolume(g: Geometry, d: Disk, nodes: Nodes, o: Owner, n: Node)
    requires Fits(g, d) && Enterable(g, d, nodes, o, n) && o.At?
    ensures InVolume(g, n.ch) && Distinct(n.ch) && !FlatRoot(g, o)
  {
    ChainInVolume(g, Table(g, d), n.ch);
  }

  /** The slot is a place of that directory, and nobody has it. */
  lemma CreateWhere(g: Geometry, d: Disk, fds: seq<Fd>, nodes: Nodes, x: Owner, k: nat, o: Owner)
    requires Inv(g, d, fds, nodes) && x in nodes && nodes[x].dir
    requires FirstFree(d, DirSecs(g, x, nodes[x].ch), k) && o == SlotOf(DirSecs(g, x, nodes[x].ch), k)
    ensures o !in nodes && o.sec < g.tot && |d| == g.tot && o.off % 32 == 0 && o.off < SEC
    ensures InNode(g, x, nodes[x], o.sec)
    ensures InVolume(g, nodes[x].ch) && Distinct(nodes[x].ch) && DirOk(d, DirSecs(g, x, nodes[x].ch))
  {
    hide Complete, FdsOk, Mirrored, InRange, Table, DirSecs, EntOf, Ent, SlotOf, InNode, Shape, DirOk;
    AllInVolume(g, d, nodes);
    hide ChainsOk;
    DirSecsPlaces(g, x, nodes[x]);
    SlotEnt(d, DirSecs(g, x, nodes[x].ch), k);
    OwnersListed(g, d, fds, nodes, o);
  }

  lemma OwnersListed(g: Geometry, d: Disk, fds: seq<Fd>, nodes: Nodes, o: Owner)
    requires EntriesOk(g, d, fds, nodes) && o.At?
    ensures o in nodes ==> Listed(d, o, nodes[o])
  {
  }

  /** Directories other than `x` and all files are as before; a new directory holds nothing. */
  lemma CreateElsewhere(g: Geometry, d: Disk, fds: seq<Fd>, nodes: Nodes, x: Owner, k: nat, o: Owner, e: seq<byte>,
                        n: Node, d': Disk)
    requires Inv(g, d, fds, nodes) && x in nodes && nodes[x].dir && o !in nodes && o.At?
    requires InNode(g, x, nodes[x], o.sec)
    requires Enterable(g, d, nodes, o, n) && DirOk(d', DirSecs(g, x, nodes[x].ch))
    requires o.sec < |d| && o.off + 32 <= SEC && |e| == 32 && d' == EntryWritten(d, o.sec, o.off, e)
    ensures DirsOk(g, d', nodes[o := n])
    ensures FilesKept(g, d, nodes, d', nodes[o := n], {}) && DirsKept(g, d, nodes, d', nodes[o := n], {x})
  {
    hide Complete, FdsOk, Mirrored, InRange, Table, EntriesOk, FileBytes, DirNames, DirOk, DirSecs;
    WrittenElsewhere(d, o.sec, o.off, e);
    hide EntryWritten;
    EntryWriteElsewhere(g, d, nodes, x, o.sec, d');
    if n.dir {
      EnterableVolume(g, d, nodes, o, n);
      hide ChainsOk, Shape;
      DirSecsPlaces(g, o, n);
      assert !InNode(g, o, n, o.sec) by {
        assert Disjoint(nodes[x].ch, n.ch);
      }
      hide InNode;
      DirFrame(d, d', DirSecs(g, o, n.ch));
    }
  }

  lemma WrittenElsewhere(d: Disk, sec: nat, off: nat, e: seq<byte>)
    requires sec < |d| && off + 32 <= SEC && |e| == 32
    ensures |EntryWritten(d, sec, off, e)| == |d|
    ensures forall s :: 0 <= s < |d| && s != sec ==> EntryWritten(d, sec, off, e)[s] == d[s]
  {
  }

  // ---- a directory grows ----

  /** The sectors of a cluster are zeroed. */
  ghost predicate Zeroed(g: Geometry, d: Disk, c: nat) {
    forall s :: g.ClusLba(c) <= s < g.ClusLba(c) + g.spc && s < |d| ==> d[s] == seq(SEC, _ => 0)
  }

  lemma GrownSec(g: Geometry, ch: seq<nat>, c: nat, q: nat)
    requires g.Valid() && q < (|ch| + 1) * g.spc
    ensures q < |ch| * g.spc ==> SecLba(g, ch + [c], q) == SecLba(g, ch, q)
    ensures q >= |ch| * g.spc ==>
      SecLba(g, ch + [c], q) == g.ClusLba(c) + (q - |ch| * g.spc) && q - |ch| * g.spc < g.spc
  {
    hide Geometry.ClusLba;
    if q < |ch| * g.spc {
      SectorIndex(ch, g.spc, q);
    } else {
      assert (|ch| + 1) * g.spc == |ch| * g.spc + g.spc;
      DivModUnique(q, g.spc, |ch|, q - |ch| * g.spc);
    }
  }

  lemma GrownSecs(g: Geometry, o: Owner, ch: seq<nat>, c: nat) returns (more: seq<nat>)
    requires g.Valid() && 2 <= c < g.Last() && !FlatRoot(g, o)
    ensures DirSecs(g, o, ch + [c]) == DirSecs(g, o, ch) + more
    ensures forall i :: 0 <= i < |more| ==> g.ClusLba(c) <= more[i] < g.ClusLba(c) + g.spc && more[i] < g.tot
  {
    hide SecLba, Geometry.ClusLba, Geometry.ClusOf;
    var was, all := DirSecs(g, o, ch), DirSecs(g, o, ch + [c]);
    assert |ch + [c]| == |ch| + 1;
    assert |all| == (|ch| + 1) * g.spc == |ch| * g.spc + g.spc;
    more := all[|was|..];
    forall q | 0 <= q < |all|
      ensures q < |was| ==> all[q] == was[q]
      ensures q >= |was| ==> g.ClusLba(c) <= all[q] < g.ClusLba(c) + g.spc && all[q] < g.tot
    {
      GrownSec(g, ch, c, q);
      if q >= |was| {
        ClusterSectors(g, c, q - |was|);
      }
    }
  }

  lemma GrownNames(g: Geometry, d: Disk, d': Disk, nodes: Nodes, x: Owner, c: nat, n: Node)
    requires Fits(g, d) && ChainsOk(g, Table(g, d), nodes) && Shape(g, nodes) && InRange(g, Table(g, d))
    requires x in nodes && nodes[x].dir && !FlatRoot(g, x) && DirOk(d, DirSecs(g, x, nodes[x].ch))
    requires Claimed(g, d, d', nodes[x].ch, c) && Zeroed(g, d', c) && n == nodes[x].(ch := nodes[x].ch + [c])
    ensures DirOk(d', DirSecs(g, x, n.ch)) && DirNames(g, d', x, n) == DirNames(g, d, x, nodes[x])
  {
    hide ChainsOk, Shape, InRange, Table, InDir, DirOk, DirSecs, InVolume, Distinct, ChainOk;
    AllInVolume(g, d, nodes);
    ClaimedChains(g, d, d', nodes, x, c);
    AllInVolume(g, d', nodes[x := n]);
    assert x in nodes[x := n] && nodes[x := n][x] == n;
    var more := GrownSecs(g, x, nodes[x].ch, c);
    var secs := DirSecs(g, x, nodes[x].ch);
    ClaimedSectors(g, d, d', nodes, x, c);
    DirSecsPlaces(g, x, nodes[x]);
    DirSecsPlaces(g, x, n);
    forall i | 0 <= i < |secs| ensures d'[secs[i]] == d[secs[i]] {
      InItsDir(g, nodes, x, secs[i]);
    }
    assert forall i :: 0 <= i < |more| ==> more[i] < |d'| && d'[more[i]] == seq(SEC, _ => 0);
    hide Claimed, Zeroed, InNode;
    DirGrown(d, d', secs, more);
  }

  /** A directory grows by one zeroed cluster: no name and no file changes. */
  lemma GrowDirStep(g: Geometry, d: Disk, d': Disk, fds: seq<Fd>, nodes: Nodes, x: Owner, c: nat, n: Node)
    requires Inv(g, d, fds, nodes) && x in nodes && nodes[x].dir && !FlatRoot(g, x)
    requires Claimed(g, d, d', nodes[x].ch, c) && Zeroed(g, d', c) && n == nodes[x].(ch := nodes[x].ch + [c])
    ensures Inv(g, d', fds, nodes[x := n])
    ensures FilesKept(g, d, nodes, d', nodes[x := n], {}) && DirsKept(g, d, nodes, d', nodes[x := n], {})
  {
    hide ChainsOk, InRange, Mirrored, Complete, EntriesOk, FileBytes, DirNames, Table, FdsOk, DirSecs, InDir, Zeroed,
         DirOk;
    ClaimedChains(g, d, d', nodes, x, c);
    ClaimedEntries(g, d, d', fds, nodes, x, c);
    GrownNames(g, d, d', nodes, x, c, n);
    GrownDirFiles(g, d, d', nodes, x, c);
    GrownShape(g, nodes, x, n);
    GrownEntries(g, d', fds, nodes, x, n);
    GrownComplete(g, d, d', nodes, x, n, c);
    GrownFds(fds, nodes, x, n);
  }

  lemma GrownDirFiles(g: Geometry, d: Disk, d': Disk, nodes: Nodes, x: Owner, c: nat)
    requires Fits(g, d) && ChainsOk(g, Table(g, d), nodes) && InRange(g, Table(g, d)) && Shape(g, nodes)
    requires x in nodes && nodes[x].dir && Claimed(g, d, d', nodes[x].ch, c)
    ensures FilesKept(g, d, nodes, d', nodes, {})
  {
    hide ChainsOk, InRange, Shape, Claimed;
    forall y | y in nodes && !nodes[y].dir ensures FileBytes(g, d', nodes[y]) == FileBytes(g, d, nodes[y]) {
      GrownBytes(g, d, d', nodes, x, c, y);
    }
  }

  lemma GrownShape(g: Geometry, nodes: Nodes, x: Owner, n: Node)
    requires Shape(g, nodes) && x in nodes && nodes[x].dir && !FlatRoot(g, x)
    requires n.dir && n.size == 0 && nodes[x].ch != [] && nodes[x].ch <= n.ch
    ensures Shape(g, nodes[x := n]) && Head(n.ch) == Head(nodes[x].ch)
    ensures forall s :: InDir(g, nodes, s) ==> InDir(g, nodes[x := n], s)
    ensures forall s :: InDir(g, nodes[x := n], s) ==> InDir(g, nodes, s) || InNode(g, x, n, s)
  {
    hide InNode;
    GrownNode(g, x, nodes[x], n);
    forall s | InDir(g, nodes, s) ensures InDir(g, nodes[x := n], s) {
      var y :| y in nodes && nodes[y].dir && InNode(g, y, nodes[y], s);
      assert y in nodes[x := n] && nodes[x := n][y].dir && InNode(g, y, nodes[x := n][y], s);
    }
    hide InDir;
  }

  lemma GrownNode(g: Geometry, x: Owner, m: Node, n: Node)
    requires m.ch <= n.ch
    ensures forall s :: InNode(g, x, m, s) ==> InNode(g, x, n, s)
  {
    forall s | InNode(g, x, m, s) ensures InNode(g, x, n, s) {
      if !FlatRoot(g, x) {
        var k :| 0 <= k < |m.ch| && m.ch[k] == g.ClusOf(s);
        assert n.ch[k] == g.ClusOf(s);
      }
    }
  }

  lemma GrownEntries(g: Geometry, d: Disk, fds: seq<Fd>, nodes: Nodes, x: Owner, n: Node)
    requires EntriesOk(g, d, fds, nodes) && x in nodes && n.dir == nodes[x].dir && n.size == nodes[x].size
    requires Head(n.ch) == Head(nodes[x].ch)
    ensures EntriesOk(g, d, fds, nodes[x := n])
  {
    hide Writing;
  }

  lemma GrownComplete(g: Geometry, d: Disk, d': Disk, nodes: Nodes, x: Owner, n: Node, c: nat)
    requires Complete(g, d', nodes) && x in nodes && nodes[x].dir && !FlatRoot(g, x) && g.Valid() && |d'| == g.tot
    requires n == nodes[x].(ch := nodes[x].ch + [c]) && 2 <= c < g.Last() && Zeroed(g, d', c)
    requires forall s :: InDir(g, nodes[x := n], s) ==> InDir(g, nodes, s) || InNode(g, x, n, s)
    ensures Complete(g, d', nodes[x := n])
  {
    hide InDir, Plain;
    forall s, off | 0 <= s < g.tot && 0 <= off < SEC && off % 32 == 0 && InDir(g, nodes[x := n], s) &&
                    Live(EntOf(d', s, off)) && Plain(EntOf(d', s, off))
      ensures At(s, off) in nodes[x := n]
    {
      InItsDir(g, nodes, x, s);
      ZeroedNotLive(g, d', c, s, off);
    }
  }

  lemma InItsDir(g: Geometry, nodes: Nodes, x: Owner, s: nat)
    requires x in nodes && nodes[x].dir
    ensures InNode(g, x, nodes[x], s) ==> InDir(g, nodes, s)
  {
  }

  lemma ZeroedNotLive(g: Geometry, d: Disk, c: nat, s: nat, off: nat)
    requires g.Valid() && |d| == g.tot && 2 <= c < g.Last() && Zeroed(g, d, c) && s < g.tot && off < SEC
    requires off % 32 == 0
    ensures g.dataStart <= s && g.ClusOf(s) == c ==> !Live(EntOf(d, s, off))
  {
    if g.dataStart <= s && g.ClusOf(s) == c {
      ClusterRange(g, c, s);
      assert EntOf(d, s, off)[0] == d[s][off];
    }
  }

  lemma ClusterRange(g: Geometry, c: nat, s: nat)
    requires g.Valid() && c >= 2 && g.dataStart <= s && g.ClusOf(s) == c
    ensures g.ClusLba(c) <= s < g.ClusLba(c) + g.spc
  {
    assert s - g.dataStart == (s - g.dataStart) / g.spc * g.spc + (s - g.dataStart) % g.spc;
  }

  lemma GrownFds(fds: seq<Fd>, nodes: Nodes, x: Owner, n: Node)
    requires FdsOk(fds, nodes) && x in nodes && nodes[x].dir && n.dir
    ensures FdsOk(fds, nodes[x := n])
  {
  }

  // ---- removing an entry ----

  /** What an owner's entry in directory `x` looks like before it is deleted. */
  lemma DeleteWhere(g: Geometry, d: Disk, fds: seq<Fd>, nodes: Nodes, x: Owner, k: nat, o: Owner)
    requires Inv(g, d, fds, nodes) && x in nodes && nodes[x].dir && o in nodes
    requires k < |DirSecs(g, x, nodes[x].ch)| * PER_SEC && o == SlotOf(DirSecs(g, x, nodes[x].ch), k)
    requires nodes[o].dir ==> HoldsNothing(d, DirSecs(g, o, nodes[o].ch))
    ensures o != x && o.sec < g.tot && |d| == g.tot && o.off % 32 == 0 && o.off < SEC && InNode(g, x, nodes[x], o.sec)
    ensures InVolume(g, nodes[x].ch) && Distinct(nodes[x].ch) && DirOk(d, DirSecs(g, x, nodes[x].ch))
    ensures Live(Ent(d, DirSecs(g, x, nodes[x].ch), k))
    ensures Ent(d, DirSecs(g, x, nodes[x].ch), k) == EntOf(d, o.sec, o.off)
  {
    hide Complete, FdsOk, Mirrored, InRange, Table, DirSecs, EntOf, Ent, SlotOf, InNode, Shape, DirOk;
    AllInVolume(g, d, nodes);
    hide ChainsOk;
    DirSecsPlaces(g, x, nodes[x]);
    SlotEnt(d, DirSecs(g, x, nodes[x].ch), k);
    assert Listed(d, o, nodes[o]);
  }

  /** Nobody's entry lies in a directory that holds nothing. */
  lemma NobodyInside(g: Geometry, d: Disk, nodes: Nodes, o: Owner, y: Owner)
    requires g.Valid() && o in nodes && nodes[o].dir && y in nodes && y.At? && Listed(d, y, nodes[y])
    requires InVolume(g, nodes[o].ch) && HoldsNothing(d, DirSecs(g, o, nodes[o].ch)) && Proper(g, y, nodes[y])
    ensures !InNode(g, o, nodes[o], y.sec)
  {
    hide InNode, DirSecs, Plain, EntOf, Ent;
    if InNode(g, o, nodes[o], y.sec) {
      var k := SlotIndex(g, o, nodes[o], y.sec, y.off);
      SlotEnt(d, DirSecs(g, o, nodes[o].ch), k);
    }
  }

  lemma DeletedShape(g: Geometry, d: Disk, fds: seq<Fd>, nodes: Nodes, o: Owner)
    requires Fits(g, d) && Shape(g, nodes) && EntriesOk(g, d, fds, nodes) && o in nodes && o.At?
    requires InVolume(g, nodes[o].ch)
    requires nodes[o].dir ==> HoldsNothing(d, DirSecs(g, o, nodes[o].ch))
    ensures Shape(g, nodes - {o}) && forall s :: InDir(g, nodes - {o}, s) ==> InDir(g, nodes, s)
  {
    hide HoldsNothing, InNode, Proper, Listed, DirSecs, Tied, Writing;
    var nodes' := nodes - {o};
    forall y | y in nodes' && y.At? ensures InDir(g, nodes', y.sec) {
      DeletedInDir(g, d, fds, nodes, o, y);
    }
    forall s | InDir(g, nodes', s) ensures InDir(g, nodes, s) {
      var z :| z in nodes' && nodes'[z].dir && InNode(g, z, nodes'[z], s);
      InItsDir(g, nodes, z, s);
    }
    hide InDir;
  }

  lemma OwnerPlace(g: Geometry, nodes: Nodes, y: Owner)
    requires Shape(g, nodes) && y in nodes && y.At?
    ensures Proper(g, y, nodes[y]) && InDir(g, nodes, y.sec)
  {
  }

  lemma DeletedInDir(g: Geometry, d: Disk, fds: seq<Fd>, nodes: Nodes, o: Owner, y: Owner)
    requires Fits(g, d) && Shape(g, nodes) && EntriesOk(g, d, fds, nodes) && o in nodes && o.At?
    requires InVolume(g, nodes[o].ch) && y in nodes && y != o && y.At?
    requires nodes[o].dir ==> HoldsNothing(d, DirSecs(g, o, nodes[o].ch))
    ensures InDir(g, nodes - {o}, y.sec)
  {
    hide HoldsNothing, InNode, Proper, Listed, DirSecs, Fits, InVolume, Shape, EntriesOk;
    FitsValid(g, d);
    OwnersListed(g, d, fds, nodes, y);
    OwnerPlace(g, nodes, y);
    var z :| z in nodes && nodes[z].dir && InNode(g, z, nodes[z], y.sec);
    if z == o {
      NobodyInside(g, d, nodes, o, y);
    }
    InItsDir(g, nodes - {o}, z, y.sec);
  }

  lemma DeletedEntries(g: Geometry, d: Disk, fds: seq<Fd>, nodes: Nodes, o: Owner, e: seq<byte>, d1: Disk)
    requires EntriesOk(g, d, fds, nodes) && Shape(g, nodes) && |d| == g.tot
    requires o in nodes && o.At? && o.sec < |d| && o.off % 32 == 0 && o.off < SEC && |e| == 32
    requires d1 == EntryWritten(d, o.sec, o.off, e)
    ensures EntriesOk(g, d1, fds, nodes - {o})
  {
    OtherEntries(d, o.sec, o.off, e);
    hide InDir, Plain, Live, IsDirAttr, EntryWritten, EntOf, Proper, Writing, FirstClus, FileSize;
    forall x | x in nodes - {o} && x.At?
      ensures Listed(d1, x, nodes[x]) && (Writing(fds, x) || Tied(g, d1, x, nodes[x]))
    {
      PlaceOf(g, x, nodes[x]);
      assert EntOf(d1, x.sec, x.off) == EntOf(d, x.sec, x.off);
    }
  }

  lemma DeletedComplete(g: Geometry, d: Disk, nodes: Nodes, o: Owner, e: seq<byte>, d1: Disk)
    requires Complete(g, d, nodes) && |d| == g.tot
    requires o in nodes && o.At? && o.sec < |d| && o.off % 32 == 0 && o.off < SEC && |e| == 32 && e[0] == 0xE5
    requires d1 == EntryWritten(d, o.sec, o.off, e)
    requires forall s :: InDir(g, nodes - {o}, s) ==> InDir(g, nodes, s)
    ensures Complete(g, d1, nodes - {o})
  {
    OtherEntries(d, o.sec, o.off, e);
    hide InDir, Plain, EntryWritten, EntOf;
  }

  lemma DeletedFds(fds: seq<Fd>, nodes: Nodes, o: Owner)
    requires FdsOk(fds, nodes) && o in nodes && !Opened(fds, o)
    ensures FdsOk(fds, nodes - {o})
  {
    forall i | 0 <= i < |fds| ensures FdOk(fds[i], nodes - {o}) {
      if fds[i].used && !fds[i].isDir {
        assert OpenOn(fds[i], At(fds[i].dirSec, fds[i].dirOff));
      }
    }
  }

  lemma PlaceOf(g: Geometry, o: Owner, n: Node)
    requires Proper(g, o, n) && o.At?
    ensures o.sec < g.tot && o.off % 32 == 0 && o.off < SEC
  {
  }

  /** A node whose entry is marked deleted leaves the volume; for a directory, nothing may be left in it. */
  lemma DeleteEntry(g: Geometry, d: Disk, fds: seq<Fd>, nodes: Nodes, x: Owner, k: nat, o: Owner, e: seq<byte>,
                    d1: Disk)
    requires Inv(g, d, fds, nodes) && x in nodes && nodes[x].dir && o in nodes && !Opened(fds, o)
    requires k < |DirSecs(g, x, nodes[x].ch)| * PER_SEC && o == SlotOf(DirSecs(g, x, nodes[x].ch), k)
    requires nodes[o].dir ==> HoldsNothing(d, DirSecs(g, o, nodes[o].ch))
    requires |e| == 32 && e[0] == 0xE5 && o.sec < |d| && d1 == EntryWritten(d, o.sec, o.off, e)
    ensures Inv(g, d1, fds, nodes - {o}) && x != o && Table(g, d1) == Table(g, d)
    ensures DirNames(g, d1, x, nodes[x]) == DirNames(g, d, x, nodes[x]) - {NameOf(EntOf(d, o.sec, o.off))}
    ensures FilesKept(g, d, nodes, d1, nodes - {o}, {o}) && DirsKept(g, d, nodes, d1, nodes - {o}, {o, x})
  {
    hide ChainsOk, InRange, Mirrored, Complete, EntriesOk, FileBytes, Table, FdsOk, Live, EntryWritten, DirSecs, Shape,
         Names, InNode, DirOk, EntOf, Ent, NameOf, HoldsNothing, InDir, Opened, EntReplaced;
    DeleteWhere(g, d, fds, nodes, x, k, o);
    EntryWrite(g, d, nodes, x, k, e, o, d1);
    EntryDeleted(d, d1, DirSecs(g, x, nodes[x].ch), k, e);
    AllInVolume(g, d, nodes);
    DeletedShape(g, d, fds, nodes, o);
    DeletedEntries(g, d, fds, nodes, o, e, d1);
    DeletedComplete(g, d, nodes, o, e, d1);
    DeletedFds(fds, nodes, o);
    WrittenElsewhere(d, o.sec, o.off, e);
    EntryWriteElsewhere(g, d, nodes, x, o.sec, d1);
    FewerChains(g, Table(g, d), nodes, o);
  }

  lemma FewerChains(g: Geometry, t: seq<nat>, nodes: Nodes, o: Owner)
    requires ChainsOk(g, t, nodes) && o in nodes
    ensures ChainsOk(g, t, nodes - {o})
    ensures forall x :: x in nodes - {o} ==> Disjoint(nodes[x].ch, nodes[o].ch)
  {
    hide ChainOk, Disjoint;
  }

  /** A chain nobody owns any more is given back: nothing a user sees changes. */
  lemma ReleaseStep(g: Geometry, d: Disk, d': Disk, fds: seq<Fd>, nodes: Nodes, ch: seq<nat>)
    requires Inv(g, d, fds, nodes) && Released(g, d, d', ch)
    requires forall x :: x in nodes ==> Disjoint(nodes[x].ch, ch)
    ensures Inv(g, d', fds, nodes)
    ensures FilesKept(g, d, nodes, d', nodes, {}) && DirsKept(g, d, nodes, d', nodes, {})
  {
    hide Mirrored, Complete, DirsOk, EntriesOk, FilesKept, DirsKept, Table, Cleared, Shape, FdsOk;
    ReleasedKeeps(g, d, d', fds, nodes);
    UnownedCleared(g, Table(g, d), nodes, ch);
  }

  lemma UnownedCleared(g: Geometry, t: seq<nat>, nodes: Nodes, ch: seq<nat>)
    requires g.Valid() && ChainsOk(g, t, nodes) && InRange(g, t) && forall x :: x in nodes ==> Disjoint(nodes[x].ch, ch)
    ensures ChainsOk(g, Cleared(t, ch), nodes) && InRange(g, Cleared(t, ch))
  {
    forall x | x in nodes ensures ChainOk(g, Cleared(t, ch), nodes[x].ch) {
      ChainFrame(g, t, Cleared(t, ch), nodes[x].ch);
    }
  }
}
