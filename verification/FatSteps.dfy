/** Each kind of change the driver makes to a volume keeps the invariant. */
module FatSteps {
  import opened Bytes
  import opened FatTable
  import opened FatChain
  import opened FatFile
  import opened FatDir
  import opened FatState

  /** Both have the same directories. */
  ghost predicate SameDirs(nodes: Nodes, nodes': Nodes) {
    && (forall o :: o in nodes && nodes[o].dir ==> o in nodes' && nodes'[o] == nodes[o])
    && (forall o :: o in nodes' && nodes'[o].dir ==> o in nodes && nodes[o] == nodes'[o])
  }

  lemma SameDirsSectors(g: Geometry, nodes: Nodes, nodes': Nodes)
    requires g.Valid() && SameDirs(nodes, nodes')
    ensures forall s :: InDir(g, nodes, s) <==> InDir(g, nodes', s)
  {
  }

  lemma AllInVolume(g: Geometry, d: Disk, nodes: Nodes)
    requires Fits(g, d) && ChainsOk(g, Table(g, d), nodes)
    ensures forall o :: o in nodes ==> InVolume(g, nodes[o].ch) && Distinct(nodes[o].ch)
  {
    forall o | o in nodes ensures InVolume(g, nodes[o].ch) && Distinct(nodes[o].ch) {
      ChainInVolume(g, Table(g, d), nodes[o].ch);
    }
  }

  /** Every file outside `ex` has its bytes. */
  ghost predicate FilesKept(g: Geometry, d: Disk, nodes: Nodes, d': Disk, nodes': Nodes, ex: set<Owner>) {
    forall x :: x in nodes && x !in ex && !nodes[x].dir ==>
      x in nodes' && !nodes'[x].dir && FileBytes(g, d', nodes'[x]) == FileBytes(g, d, nodes[x])
  }

  /** Every directory outside `ex` has its names. */
  ghost predicate DirsKept(g: Geometry, d: Disk, nodes: Nodes, d': Disk, nodes': Nodes, ex: set<Owner>) {
    forall x :: x in nodes && x !in ex && nodes[x].dir ==>
      x in nodes' && nodes'[x].dir && DirNames(g, d', x, nodes'[x]) == DirNames(g, d, x, nodes[x])
  }

  /** Cluster `c` was claimed and linked behind `ch`; besides the table only its own sectors changed. */
  ghost predicate Claimed(g: Geometry, d: Disk, d': Disk, ch: seq<nat>, c: nat) {
    && 2 <= c < g.Last() && Table(g, d)[c] == 0 && ChainOk(g, Table(g, d), ch)
    && |d'| == |d| == g.tot && Mirrored(g, d')
    && Table(g, d') == Linked(g, Table(g, d), ch, c)
    && forall lba :: 0 <= lba < g.tot && !g.InFat(lba) && (lba < g.dataStart || g.ClusOf(lba) != c) ==>
       d'[lba] == d[lba]
  }

  /** A free cluster belongs to nobody. */
  lemma FreeIsUnowned(g: Geometry, d: Disk, nodes: Nodes, c: nat)
    requires Fits(g, d) && ChainsOk(g, Table(g, d), nodes) && c < g.Last() && Table(g, d)[c] == 0
    ensures forall o :: o in nodes ==> c !in nodes[o].ch
  {
    forall o | o in nodes ensures c !in nodes[o].ch {
      if nodes[o].ch != [] {
        ChainInUse(g, Table(g, d), nodes[o].ch);
      }
    }
  }

  lemma ClaimedChains(g: Geometry, d: Disk, d': Disk, nodes: Nodes, o: Owner, c: nat)
    requires Fits(g, d) && ChainsOk(g, Table(g, d), nodes) && InRange(g, Table(g, d)) && o in nodes
    requires Claimed(g, d, d', nodes[o].ch, c)
    ensures ChainsOk(g, Table(g, d'), nodes[o := nodes[o].(ch := nodes[o].ch + [c])]) && InRange(g, Table(g, d'))
  {
    var ch := nodes[o].ch;
    FreeIsUnowned(g, d, nodes, c);
    LinkedChain(g, Table(g, d), ch, c);
    var nodes' := nodes[o := nodes[o].(ch := ch + [c])];
    forall x | x in nodes' ensures ChainOk(g, Table(g, d'), nodes'[x].ch) {
      if x != o {
        assert Disjoint(nodes[x].ch, ch);
      }
    }
  }

  lemma ClaimedSectors(g: Geometry, d: Disk, d': Disk, nodes: Nodes, o: Owner, c: nat)
    requires Fits(g, d) && ChainsOk(g, Table(g, d), nodes) && Shape(g, nodes) && o in nodes
    requires Claimed(g, d, d', nodes[o].ch, c)
    ensures forall s :: 0 <= s < g.tot && InDir(g, nodes, s) ==> d'[s] == d[s]
    ensures forall x, s :: x in nodes && g.dataStart <= s < g.tot && g.ClusOf(s) in nodes[x].ch ==> d'[s] == d[s]
  {
    FreeIsUnowned(g, d, nodes, c);
  }

  lemma GrownBytes(g: Geometry, d: Disk, d': Disk, nodes: Nodes, o: Owner, c: nat, x: Owner)
    requires Fits(g, d) && ChainsOk(g, Table(g, d), nodes) && InRange(g, Table(g, d)) && Shape(g, nodes)
    requires o in nodes && Claimed(g, d, d', nodes[o].ch, c)
    requires x in nodes && !nodes[x].dir
    ensures var nodes' := nodes[o := nodes[o].(ch := nodes[o].ch + [c])];
      Fits(g, d') && ChainsOk(g, Table(g, d'), nodes') && InVolume(g, nodes[x].ch) && InVolume(g, nodes'[x].ch)
      && nodes[x].size <= Capacity(g, nodes'[x].ch)
      && Content(g, d', nodes'[x].ch, nodes[x].size) == Content(g, d, nodes[x].ch, nodes[x].size)
  {
    ClaimedChains(g, d, d', nodes, o, c);
    ClaimedSectors(g, d, d', nodes, o, c);
    AllInVolume(g, d, nodes);
    ContentFrame(g, d, d', nodes[x].ch, nodes[x].size);
    if x == o {
      ContentGrown(g, d', nodes[x].ch, c, nodes[o].size);
    }
  }

  /** Replacing a file's node keeps the shape and the directories. */
  lemma FileReplaced(g: Geometry, nodes: Nodes, o: Owner, n: Node)
    requires g.Valid() && Shape(g, nodes) && o in nodes && !nodes[o].dir && !n.dir && Proper(g, o, n)
    ensures Shape(g, nodes[o := n]) && SameDirs(nodes, nodes[o := n])
    ensures forall s :: InDir(g, nodes, s) <==> InDir(g, nodes[o := n], s)
  {
    assert o.At?;
    SameDirsSectors(g, nodes, nodes[o := n]);
  }

  /** Entries of a volume in which file `o` is open and only its node changes. */
  lemma OpenFileEntries(g: Geometry, d: Disk, fds: seq<Fd>, fds': seq<Fd>, nodes: Nodes, o: Owner, n: Node)
    requires EntriesOk(g, d, fds, nodes)
    requires o in nodes && !nodes[o].dir && !n.dir && Writing(fds', o)
    requires forall x :: Writing(fds, x) ==> Writing(fds', x)
    ensures EntriesOk(g, d, fds', nodes[o := n])
  {
    hide Writing, Tied;
  }

  /** ... and its directories. */
  lemma FileReplacedDirs(g: Geometry, d: Disk, nodes: Nodes, o: Owner, n: Node)
    requires g.Valid() && Shape(g, nodes) && Complete(g, d, nodes) && DirsOk(g, d, nodes)
    requires o in nodes && !nodes[o].dir && !n.dir && Proper(g, o, n)
    ensures Shape(g, nodes[o := n]) && Complete(g, d, nodes[o := n]) && DirsOk(g, d, nodes[o := n])
  {
    FileReplaced(g, nodes, o, n);
    hide InDir, DirOk, Proper;
  }

  /** The node of a file somebody has open may change, together with its descriptor, within its chains. */
  lemma OpenFileChanges(g: Geometry, d: Disk, fds: seq<Fd>, nodes: Nodes, i: nat, o: Owner, f: Fd, n: Node)
    requires Fits(g, d) && Mirrored(g, d) && InRange(g, Table(g, d)) && ChainsOk(g, Table(g, d), nodes[o := n])
    requires Shape(g, nodes) && EntriesOk(g, d, fds, nodes) && Complete(g, d, nodes) && FdsOk(fds, nodes)
    requires DirsOk(g, d, nodes)
    requires i < |fds| && OpenOn(fds[i], o) && fds[i].flags.write
    requires !n.dir && Proper(g, o, n)
    requires f == fds[i].(pos := f.pos, start := Head(n.ch), size := n.size) && f.pos <= n.size
    ensures Inv(g, d, fds[i := f], nodes[o := n])
  {
    hide ChainsOk, InRange, Mirrored, Fits, Shape, Complete, DirsOk, EntriesOk;
    SameOpen(fds, i, f);
    assert Writing(fds, o);
    assert o in nodes && !nodes[o].dir;
    FdMoves(fds, nodes, i, f, n);
    OpenFileEntries(g, d, fds, fds[i := f], nodes, o, n);
    assert g.Valid() by { FitsValid(g, d); }
    FileReplacedDirs(g, d, nodes, o, n);
  }

  lemma FitsValid(g: Geometry, d: Disk)
    requires Fits(g, d)
    ensures g.Valid()
  {
  }

  lemma SameOpen(fds: seq<Fd>, i: nat, f: Fd)
    requires i < |fds| && (forall x :: OpenOn(fds[i], x) <==> OpenOn(f, x)) && f.flags == fds[i].flags
    ensures forall x :: Writing(fds, x) ==> Writing(fds[i := f], x)
  {
    forall x | Writing(fds, x) ensures Writing(fds[i := f], x) {
      var j :| 0 <= j < |fds| && OpenOn(fds[j], x) && fds[j].flags.write;
      assert OpenOn(fds[i := f][j], x);
    }
  }

  /** An open file's descriptor and node change together. */
  lemma FdMoves(fds: seq<Fd>, nodes: Nodes, i: nat, f: Fd, n: Node)
    requires FdsOk(fds, nodes) && i < |fds| && fds[i].used && !fds[i].isDir
    requires f.used && !f.isDir && f.dirSec == fds[i].dirSec && f.dirOff == fds[i].dirOff
    requires !n.dir && f.start == Head(n.ch) && f.size == n.size && f.pos <= f.size && f.flags == fds[i].flags
    requires fds[i].flags.write
    ensures FdsOk(fds[i := f], nodes[At(f.dirSec, f.dirOff) := n])
  {
    var o := At(f.dirSec, f.dirOff);
    assert OpenOn(fds[i], o);
  }

  /** A file grows by one cluster: nothing a user sees changes. */
  lemma GrowFile(g: Geometry, d: Disk, d': Disk, fds: seq<Fd>, nodes: Nodes, i: nat, c: nat,
                 o: Owner, f: Fd, n: Node)
    requires Inv(g, d, fds, nodes) && i < |fds| && OpenOn(fds[i], o) && fds[i].flags.write
    requires Claimed(g, d, d', nodes[o].ch, c)
    requires n == nodes[o].(ch := nodes[o].ch + [c]) && f == fds[i].(start := n.ch[0])
    ensures Inv(g, d', fds[i := f], nodes[o := n])
    ensures FilesKept(g, d, nodes, d', nodes[o := n], {}) && DirsKept(g, d, nodes, d', nodes[o := n], {})
  {
    hide ChainsOk, InRange, Mirrored, Complete, DirsOk, EntriesOk, FileBytes, DirNames, Table;
    ClaimedChains(g, d, d', nodes, o, c);
    ClaimedEntries(g, d, d', fds, nodes, o, c);
    GrownFiles(g, d, d', nodes, o, c, n);
    assert Proper(g, o, n) && f.start == Head(n.ch) by { GrownProper(g, d, nodes, o, c, n); }
    assert n.size == fds[i].size && fds[i].pos <= fds[i].size;
    assert Fits(g, d') && Mirrored(g, d') by { hide Shape, FdsOk; }
    OpenFileChanges(g, d', fds, nodes, i, o, f, n);
  }

  lemma GrownProper(g: Geometry, d: Disk, nodes: Nodes, o: Owner, c: nat, n: Node)
    requires Fits(g, d) && ChainsOk(g, Table(g, d), nodes) && o in nodes && !nodes[o].dir && Proper(g, o, nodes[o])
    requires 2 <= c < g.Last() && n == nodes[o].(ch := nodes[o].ch + [c])
    ensures Proper(g, o, n) && n.ch[0] == Head(n.ch)
  {
    AllInVolume(g, d, nodes);
    ContentGrown(g, d, nodes[o].ch, c, nodes[o].size);
  }

  /** Entries and directories do not see a file's cluster being claimed. */
  lemma ClaimedEntries(g: Geometry, d: Disk, d': Disk, fds: seq<Fd>, nodes: Nodes, o: Owner, c: nat)
    requires Inv(g, d, fds, nodes) && o in nodes && Claimed(g, d, d', nodes[o].ch, c)
    ensures EntriesOk(g, d', fds, nodes) && Complete(g, d', nodes) && DirsOk(g, d', nodes)
    ensures DirsKept(g, d, nodes, d', nodes, {})
  {
    hide ChainsOk, InRange, EntriesOk, Complete, DirsOk, DirNames, InDir, Mirrored, Table, FdsOk, Proper;
    AllInVolume(g, d, nodes);
    ClaimedSectors(g, d, d', nodes, o, c);
    EntriesFrame(g, d, d', fds, nodes);
  }

  lemma GrownFiles(g: Geometry, d: Disk, d': Disk, nodes: Nodes, o: Owner, c: nat, n: Node)
    requires Fits(g, d) && ChainsOk(g, Table(g, d), nodes) && InRange(g, Table(g, d)) && Shape(g, nodes)
    requires o in nodes && !nodes[o].dir && Claimed(g, d, d', nodes[o].ch, c) && n == nodes[o].(ch := nodes[o].ch + [c])
    ensures FilesKept(g, d, nodes, d', nodes[o := n], {})
  {
    hide ChainsOk, InRange, Shape, Claimed;
    forall x | x in nodes && !nodes[x].dir ensures FileBytes(g, d', nodes[o := n][x]) == FileBytes(g, d, nodes[x]) {
      GrownBytes(g, d, d', nodes, o, c, x);
    }
  }

  /** An open file's descriptor moves and its size grows within the chain it has. */
  lemma ResizeStep(g: Geometry, d: Disk, fds: seq<Fd>, nodes: Nodes, i: nat, o: Owner, f: Fd, n: Node)
    requires Inv(g, d, fds, nodes) && i < |fds| && OpenOn(fds[i], o) && fds[i].flags.write
    requires n == nodes[o].(size := n.size) && n.size <= Capacity(g, n.ch) && n.size < 0x1_0000_0000
    requires f == fds[i].(pos := f.pos, size := n.size) && f.pos <= n.size
    ensures Inv(g, d, fds[i := f], nodes[o := n])
  {
    ResizedChains(g, Table(g, d), nodes, o, n);
    OpenFileChanges(g, d, fds, nodes, i, o, f, n);
  }

  lemma ResizedChains(g: Geometry, t: seq<nat>, nodes: Nodes, o: Owner, n: Node)
    requires ChainsOk(g, t, nodes) && o in nodes && n.ch == nodes[o].ch
    ensures ChainsOk(g, t, nodes[o := n])
  {
  }

  function Max(a: nat, b: nat): (m: nat) { if a > b then a else b }

  /** Bytes written through one sector of a chain overwrite the flat content. */
  lemma WrittenContent(g: Geometry, d: Disk, ch: seq<nat>, size: nat, pos: nat, data: seq<byte>, lba: nat, d': Disk)
    requires Fits(g, d) && InVolume(g, ch) && Distinct(ch) && size <= Capacity(g, ch) && pos <= size
    requires pos < Capacity(g, ch) && pos % SEC + |data| <= SEC && pos + |data| <= Capacity(g, ch)
    requires lba == SecLba(g, ch, pos / SEC) && lba < |d|
    requires d' == d[lba := Patch(d[lba], pos % SEC, data)]
    ensures Content(g, d', ch, Max(size, pos + |data|)) == Overwrite(Content(g, d, ch, size), pos, data)
  {
    PatchedBytes(g, d, ch, pos, data);
  }

  lemma PatchOnlyData(g: Geometry, d: Disk, ch: seq<nat>, pos: nat, data: seq<byte>, lba: nat)
    requires Fits(g, d) && InVolume(g, ch) && pos < Capacity(g, ch) && pos % SEC + |data| <= SEC
    requires lba == SecLba(g, ch, pos / SEC) && lba < |d|
    ensures OnlyData(g, d, d[lba := Patch(d[lba], pos % SEC, data)], ch)
  {
    hide SecLba, Geometry.ClusOf, Geometry.ClusLba, InVolume, Fits, Capacity, OnlyData, Patch;
    FitsSizes(g, d);
    ByteOwner(g, ch, pos);
    OneSectorData(g, d, lba, Patch(d[lba], pos % SEC, data), ch);
  }

  lemma ByteOwner(g: Geometry, ch: seq<nat>, pos: nat)
    requires g.Valid() && InVolume(g, ch) && pos < Capacity(g, ch)
    ensures g.dataStart <= SecLba(g, ch, pos / SEC) && g.ClusOf(SecLba(g, ch, pos / SEC)) in ch
  {
    hide SecLba, Geometry.ClusOf, Geometry.ClusLba, InVolume, Geometry.Valid, Capacity;
    BytePlace(g, ch, pos);
  }

  lemma OneSectorData(g: Geometry, d: Disk, lba: nat, s: Sector, ch: seq<nat>)
    requires lba < |d| && g.dataStart <= lba && g.ClusOf(lba) in ch
    ensures OnlyData(g, d, d[lba := s], ch)
  {
  }

  /** What writing bytes of a file does to the disk as a whole. */
  lemma WriteData(g: Geometry, d: Disk, fds: seq<Fd>, nodes: Nodes, o: Owner, pos: nat, data: seq<byte>, lba: nat,
                  d': Disk)
    requires Inv(g, d, fds, nodes) && o in nodes && !nodes[o].dir
    requires pos <= nodes[o].size && pos < Capacity(g, nodes[o].ch)
    requires pos % SEC + |data| <= SEC && pos + |data| <= Capacity(g, nodes[o].ch)
    requires lba == SecLba(g, nodes[o].ch, pos / SEC) && lba < |d|
    requires d' == d[lba := Patch(d[lba], pos % SEC, data)]
    ensures Inv(g, d', fds, nodes) && Table(g, d') == Table(g, d)
    ensures FilesKept(g, d, nodes, d', nodes, {o}) && DirsKept(g, d, nodes, d', nodes, {})
    ensures Content(g, d', nodes[o].ch, Max(nodes[o].size, pos + |data|)) == Overwrite(FileBytes(g, d, nodes[o]), pos,
      data)
  {
    var ch := nodes[o].ch;
    hide InRange, EntriesOk, Complete, DirsOk, Mirrored, Table, OnlyData, Content, Overwrite, FdsOk, InDir, DirNames,
         Capacity, SecLba, Fits, Distinct, InVolume;
    AllInVolume(g, d, nodes);
    assert nodes[o].size <= Capacity(g, ch) by { hide ChainsOk, FilesKept, DirsKept; }
    PatchOnlyData(g, d, ch, pos, data, lba);
    WrittenContent(g, d, ch, nodes[o].size, pos, data, lba, d');
    hide Shape;
    assert forall x :: x in nodes && x != o ==> Disjoint(nodes[x].ch, ch);
    hide ChainsOk;
    DataStep(g, d, d', fds, nodes, ch);
  }

  /** Bytes written through one sector at an open file's position. */
  lemma WriteFile(g: Geometry, d: Disk, fds: seq<Fd>, nodes: Nodes, i: nat, data: seq<byte>,
                  o: Owner, f: Fd, n: Node, lba: nat, d': Disk)
    requires Inv(g, d, fds, nodes) && i < |fds| && OpenOn(fds[i], o) && fds[i].flags.write
    requires fds[i].pos < Capacity(g, nodes[o].ch) && fds[i].pos % SEC + |data| <= SEC
    requires fds[i].pos + |data| <= Capacity(g, nodes[o].ch) && fds[i].pos + |data| < 0x1_0000_0000
    requires n == nodes[o].(size := Max(nodes[o].size, fds[i].pos + |data|))
    requires f == fds[i].(pos := fds[i].pos + |data|, size := n.size)
    requires lba == SecLba(g, n.ch, fds[i].pos / SEC) && lba < |d|
    requires d' == d[lba := Patch(d[lba], fds[i].pos % SEC, data)]
    ensures Inv(g, d', fds[i := f], nodes[o := n]) && Table(g, d') == Table(g, d)
    ensures FileBytes(g, d', n) == Overwrite(FileBytes(g, d, nodes[o]), fds[i].pos, data)
    ensures FilesKept(g, d, nodes, d', nodes[o := n], {o}) && DirsKept(g, d, nodes, d', nodes[o := n], {})
  {
    OpenFileFacts(g, d, fds, nodes, i, o);
    hide Inv, Content, Overwrite, Table, DirNames, SecLba, Capacity, ChainOk, InVolume, Distinct, Fits, FilesKept,
         DirsKept;
    WriteData(g, d, fds, nodes, o, fds[i].pos, data, lba, d');
    ResizeStep(g, d', fds, nodes, i, o, f, n);
    KeptBeside(g, d, nodes, d', o, n);
  }

  /** Replacing one file's node hides nothing from the others. */
  lemma KeptBeside(g: Geometry, d: Disk, nodes: Nodes, d': Disk, o: Owner, n: Node)
    requires FilesKept(g, d, nodes, d', nodes, {o}) && DirsKept(g, d, nodes, d', nodes, {}) && o in nodes
    requires !nodes[o].dir
    ensures FilesKept(g, d, nodes, d', nodes[o := n], {o}) && DirsKept(g, d, nodes, d', nodes[o := n], {})
  {
    hide FileBytes, DirNames;
  }

  /** What an open descriptor knows about its file. */
  lemma OpenFileFacts(g: Geometry, d: Disk, fds: seq<Fd>, nodes: Nodes, i: nat, o: Owner)
    requires Inv(g, d, fds, nodes) && i < |fds| && OpenOn(fds[i], o)
    ensures Fits(g, d) && o in nodes && !nodes[o].dir
    ensures fds[i].start == Head(nodes[o].ch) && fds[i].pos <= fds[i].size == nodes[o].size
    ensures nodes[o].size <= Capacity(g, nodes[o].ch) && nodes[o].size < 0x1_0000_0000
    ensures ChainOk(g, Table(g, d), nodes[o].ch) && InVolume(g, nodes[o].ch) && Distinct(nodes[o].ch)
  {
    hide EntriesOk, Complete, DirsOk, Mirrored;
    AllInVolume(g, d, nodes);
  }

  /** The directory entry of an owner, and where its directory lists it. */
  function SlotOf(secs: seq<nat>, k: nat): (o: Owner)
    requires k < |secs| * PER_SEC
    ensures o.At? && o.off % 32 == 0 && o.off + 32 <= SEC && o.sec in secs
  {
    At(secs[k / PER_SEC], k % PER_SEC * 32)
  }

  lemma SlotIndex(g: Geometry, x: Owner, n: Node, sec: nat, off: nat) returns (k: nat)
    requires g.Valid() && InVolume(g, n.ch) && InNode(g, x, n, sec) && off % 32 == 0 && off < SEC
    ensures k < |DirSecs(g, x, n.ch)| * PER_SEC && SlotOf(DirSecs(g, x, n.ch), k) == At(sec, off)
  {
    var i := DirSecsAll(g, x, n, sec);
    k := i * PER_SEC + off / 32;
    hide DirSecs, InNode, Geometry.Valid, InVolume;
    DivModUnique(k, PER_SEC, i, off / 32);
  }

  /** One 32-byte entry rewritten. */
  function EntryWritten(d: Disk, sec: nat, off: nat, e: seq<byte>): (d': Disk)
    requires sec < |d| && off + 32 <= SEC && |e| == 32
  {
    d[sec := Patch(d[sec], off, e)]
  }

  /** No sector belongs to two directories, or to a directory and a file. */
  lemma SectorsApart(g: Geometry, t: seq<nat>, nodes: Nodes, x: Owner, y: Owner, s: nat)
    requires g.Valid() && ChainsOk(g, t, nodes) && x in nodes && y in nodes && x != y && nodes[x].dir
    requires InNode(g, x, nodes[x], s)
    ensures nodes[y].dir ==> !InNode(g, y, nodes[y], s)
    ensures g.dataStart <= s ==> g.ClusOf(s) !in nodes[y].ch
  {
  }

  lemma AllApart(g: Geometry, t: seq<nat>, nodes: Nodes, x: Owner, s: nat)
    requires g.Valid() && ChainsOk(g, t, nodes) && Shape(g, nodes) && x in nodes && nodes[x].dir
    requires InNode(g, x, nodes[x], s)
    ensures forall y :: y in nodes && nodes[y].dir && y != x ==> !InNode(g, y, nodes[y], s)
    ensures forall y :: y in nodes && y != x && g.dataStart <= s ==> g.ClusOf(s) !in nodes[y].ch
    ensures forall y :: y in nodes && !nodes[y].dir ==> nodes[y].size <= Capacity(g, nodes[y].ch)
  {
    forall y | y in nodes && y != x
      ensures nodes[y].dir ==> !InNode(g, y, nodes[y], s)
      ensures g.dataStart <= s ==> g.ClusOf(s) !in nodes[y].ch
    {
      SectorsApart(g, t, nodes, x, y, s);
    }
    hide InNode, InDir, ChainsOk, Capacity;
  }

  /** Rewriting entry `k` of directory `x`, seen from that directory and from the table. */
  lemma EntryWrite(g: Geometry, d: Disk, nodes: Nodes, x: Owner, k: nat, e: seq<byte>, o: Owner, d': Disk)
    requires Fits(g, d) && x in nodes && InVolume(g, nodes[x].ch) && Distinct(nodes[x].ch)
    requires k < |DirSecs(g, x, nodes[x].ch)| * PER_SEC && |e| == 32
    requires o == SlotOf(DirSecs(g, x, nodes[x].ch), k) && o.sec < |d| && d' == EntryWritten(d, o.sec, o.off, e)
    ensures EntReplaced(d, d', DirSecs(g, x, nodes[x].ch), k, e)
    ensures Fits(g, d') && Table(g, d') == Table(g, d) && (Mirrored(g, d) ==> Mirrored(g, d'))
    ensures InNode(g, x, nodes[x], o.sec)
  {
    var secs := DirSecs(g, x, nodes[x].ch);
    DirSecsPlaces(g, x, nodes[x]);
    PatchReplaces(d, secs, k, 0, e);
    assert Patch(Ent(d, secs, k), 0, e) == e;
    TableFrame(g, d, d');
  }

  /** Other entries of the same or another sector are untouched. */
  lemma OtherEntries(d: Disk, sec: nat, off: nat, e: seq<byte>)
    requires sec < |d| && off % 32 == 0 && off < SEC && |e| == 32
    ensures EntOf(EntryWritten(d, sec, off, e), sec, off) == e
    ensures forall s, f :: 0 <= s < |d| && 0 <= f < SEC && f % 32 == 0 && At(s, f) != At(sec, off) ==>
              EntOf(EntryWritten(d, sec, off, e), s, f) == EntOf(d, s, f)
  {
    var d' := EntryWritten(d, sec, off, e);
    forall s, f | 0 <= s < |d| && 0 <= f < SEC && f % 32 == 0 && At(s, f) != At(sec, off)
      ensures EntOf(d', s, f) == EntOf(d, s, f)
    {
      if s == sec {
        assert f + 32 <= off || off + 32 <= f;
      }
    }
  }

  /** ... and so are all files and all other directories. */
  lemma EntryWriteElsewhere(g: Geometry, d: Disk, nodes: Nodes, x: Owner, s: nat, d': Disk)
    requires Fits(g, d) && ChainsOk(g, Table(g, d), nodes) && Shape(g, nodes) && DirsOk(g, d, nodes)
    requires x in nodes && nodes[x].dir && InNode(g, x, nodes[x], s)
    requires |d'| == |d| && forall lba :: 0 <= lba < |d| && lba != s ==> d'[lba] == d[lba]
    ensures forall y :: y in nodes && nodes[y].dir && y != x ==>
      DirOk(d', DirSecs(g, y, nodes[y].ch)) && DirNames(g, d', y, nodes[y]) == DirNames(g, d, y, nodes[y])
    ensures forall y :: y in nodes && !nodes[y].dir ==> FileBytes(g, d', nodes[y]) == FileBytes(g, d, nodes[y])
  {
    AllInVolume(g, d, nodes);
    AllApart(g, Table(g, d), nodes, x, s);
    hide ChainsOk, Shape, InNode, DirOk, DirSecs, InVolume, Distinct, Capacity, Content, Names, Table;
    forall y | y in nodes && nodes[y].dir && y != x
      ensures DirOk(d', DirSecs(g, y, nodes[y].ch)) && DirNames(g, d', y, nodes[y]) == DirNames(g, d, y, nodes[y])
    {
      DirSecsPlaces(g, y, nodes[y]);
      DirFrame(d, d', DirSecs(g, y, nodes[y].ch));
    }
    forall y | y in nodes && !nodes[y].dir ensures FileBytes(g, d', nodes[y]) == FileBytes(g, d, nodes[y]) {
      ContentFrame(g, d, d', nodes[y].ch, nodes[y].size);
    }
  }

  lemma SameHead(e: seq<byte>, was: seq<byte>)
    requires |e| == 32 && |was| == 32 && e[..12] == was[..12]
    ensures Live(e) == Live(was) && Plain(e) == Plain(was) && IsDirAttr(e) == IsDirAttr(was)
  {
    assert e[0] == e[..12][0] == was[0] && e[11] == e[..12][11] == was[11];
    assert NameOf(e) == e[..12][..11] == NameOf(was);
  }

  lemma DirentEntries(g: Geometry, d: Disk, fds: seq<Fd>, nodes: Nodes, o: Owner, e: seq<byte>, d': Disk)
    requires Fits(g, d) && Shape(g, nodes) && EntriesOk(g, d, fds, nodes) && Complete(g, d, nodes)
    requires o in nodes && o.At? && |e| == 32 && d' == EntryWritten(d, o.sec, o.off, e)
    requires e[..12] == EntOf(d, o.sec, o.off)[..12]
    requires FirstClus(g, e) == Head(nodes[o].ch) && (!nodes[o].dir ==> FileSize(e) == nodes[o].size)
    ensures EntriesOk(g, d', fds, nodes) && Complete(g, d', nodes) && Tied(g, d', o, nodes[o])
  {
    SameHead(e, EntOf(d, o.sec, o.off));
    OtherEntries(d, o.sec, o.off, e);
  }

  /** Writing back an open file's entry: from now on the entry alone carries its start and size. */
  lemma DirentStep(g: Geometry, d: Disk, fds: seq<Fd>, nodes: Nodes, o: Owner, e: seq<byte>, d': Disk)
    requires Inv(g, d, fds, nodes) && o in nodes && !nodes[o].dir && |e| == 32
    requires d' == EntryWritten(d, o.sec, o.off, e)
    requires e[..12] == EntOf(d, o.sec, o.off)[..12]
    requires FirstClus(g, e) == Head(nodes[o].ch) && FileSize(e) == nodes[o].size
    ensures Inv(g, d', fds, nodes) && Tied(g, d', o, nodes[o]) && Table(g, d') == Table(g, d)
    ensures FilesKept(g, d, nodes, d', nodes, {}) && DirsKept(g, d, nodes, d', nodes, {})
  {
    hide EntriesOk, Complete, Tied, ChainOk, InNode, DirOk, DirSecs, Mirrored, InRange, InVolume, Distinct, Table,
         FdsOk;
    DirentEntries(g, d, fds, nodes, o, e, d');
    AllInVolume(g, d, nodes);
    var x :| x in nodes && nodes[x].dir && InNode(g, x, nodes[x], o.sec);
    var k := SlotIndex(g, x, nodes[x], o.sec, o.off);
    EntryWrite(g, d, nodes, x, k, e, o, d');
    assert EntOf(d, o.sec, o.off) == Ent(d, DirSecs(g, x, nodes[x].ch), k);
    hide EntOf, Ent, Names, Content;
    EntryUpdated(d, d', DirSecs(g, x, nodes[x].ch), k, e);
    EntryWriteElsewhere(g, d, nodes, x, o.sec, d');
  }

  /** A descriptor whose file's entry is up to date may be dropped. */
  lemma CloseStep(g: Geometry, d: Disk, fds: seq<Fd>, nodes: Nodes, i: nat, f: Fd)
    requires Inv(g, d, fds, nodes) && i < |fds| && fds[i].used && !f.used
    requires !fds[i].isDir && fds[i].flags.write ==> var o := At(fds[i].dirSec, fds[i].dirOff);
      o in nodes && Tied(g, d, o, nodes[o])
    ensures Inv(g, d, fds[i := f], nodes)
  {
    ClosedEntries(g, d, fds, nodes, i, f);
    ClosedFds(fds, nodes, i, f);
  }

  lemma ClosedEntries(g: Geometry, d: Disk, fds: seq<Fd>, nodes: Nodes, i: nat, f: Fd)
    requires EntriesOk(g, d, fds, nodes) && FdsOk(fds, nodes) && i < |fds| && fds[i].used && !f.used
    requires !fds[i].isDir && fds[i].flags.write ==> var o := At(fds[i].dirSec, fds[i].dirOff);
      o in nodes && Tied(g, d, o, nodes[o])
    ensures EntriesOk(g, d, fds[i := f], nodes)
  {
    ClosedOthers(fds, i, f);
  }

  lemma ClosedOthers(fds: seq<Fd>, i: nat, f: Fd)
    requires i < |fds| && !f.used
    ensures forall o :: Writing(fds, o) && !(OpenOn(fds[i], o) && fds[i].flags.write) ==> Writing(fds[i := f], o)
  {
    forall o | Writing(fds, o) && !(OpenOn(fds[i], o) && fds[i].flags.write) ensures Writing(fds[i := f], o) {
      var j :| 0 <= j < |fds| && OpenOn(fds[j], o) && fds[j].flags.write;
      assert OpenOn(fds[i := f][j], o);
    }
  }

  lemma ClosedFds(fds: seq<Fd>, nodes: Nodes, i: nat, f: Fd)
    requires FdsOk(fds, nodes) && i < |fds| && !f.used
    ensures FdsOk(fds[i := f], nodes)
  {
  }

  /** A free descriptor may be put on a file that can be shared, or on a directory. */
  lemma OpenStep(g: Geometry, d: Disk, fds: seq<Fd>, nodes: Nodes, i: nat, f: Fd)
    requires Inv(g, d, fds, nodes) && i < |fds| && !fds[i].used && f.used
    requires !f.isDir ==> FdOk(f, nodes) && Sharable(fds, At(f.dirSec, f.dirOff), f.flags.write)
    ensures Inv(g, d, fds[i := f], nodes)
  {
    OpenedMore(fds, i, f);
    OpenedFds(fds, nodes, i, f);
    hide Writing, Tied, Listed;
  }

  lemma OpenedMore(fds: seq<Fd>, i: nat, f: Fd)
    requires i < |fds| && !fds[i].used
    ensures forall o :: Writing(fds, o) ==> Writing(fds[i := f], o)
  {
    forall o | Writing(fds, o) ensures Writing(fds[i := f], o) {
      var j :| 0 <= j < |fds| && OpenOn(fds[j], o) && fds[j].flags.write;
      assert OpenOn(fds[i := f][j], o);
    }
  }

  lemma OpenedFds(fds: seq<Fd>, nodes: Nodes, i: nat, f: Fd)
    requires FdsOk(fds, nodes) && i < |fds| && !fds[i].used && f.used
    requires !f.isDir ==> FdOk(f, nodes) && Sharable(fds, At(f.dirSec, f.dirOff), f.flags.write)
    ensures FdsOk(fds[i := f], nodes)
  {
    assert forall b, o :: 0 <= b < |fds| && OpenOn(fds[b], o) ==>
      Opened(fds, o) && (fds[b].flags.write ==> Writing(fds, o));
  }
}
