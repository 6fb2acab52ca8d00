/** The state of a mounted volume: who owns which clusters, and what the disk must say about it. */
module FatState {
  import opened Bytes
  import opened FatTable
  import opened FatChain
  import opened FatFile
  import opened FatDir

  /** A file or subdirectory is known by the place of its directory entry. */
  datatype Owner = Root | At(sec: nat, off: nat)

  /** A directory (`size` 0) or a file, with its cluster chain. */
  datatype Node = Node(dir: bool, ch: seq<nat>, size: nat)

  type Nodes = map<Owner, Node>

  datatype Flags = Flags(read: bool, write: bool, append: bool, trunc: bool, create: bool, dir: bool)

  /** A row of the descriptor table. */
  datatype Fd = Fd(used: bool, flags: Flags, isDir: bool, start: nat, size: nat, pos: nat, dirSec: nat, dirOff: nat)

  // ---- directory sectors ----

  predicate FlatRoot(g: Geometry, o: Owner) { o.Root? && !g.fat32 }

  /** Sector `s` belongs to directory `o`. */
  ghost predicate InNode(g: Geometry, o: Owner, n: Node, s: nat) {
    if FlatRoot(g, o) then g.rootStart <= s < g.dataStart
    else g.dataStart <= s < g.tot && g.ClusOf(s) in n.ch
  }

  /** The sectors of a directory in scan order. */
  ghost function DirSecs(g: Geometry, o: Owner, ch: seq<nat>): (secs: seq<nat>)
    ensures |secs| == if FlatRoot(g, o) then g.rootSecs else |ch| * g.spc
  {
    if FlatRoot(g, o) then seq(g.rootSecs, i requires 0 <= i => g.rootStart + i)
    else seq(|ch| * g.spc, q requires 0 <= q => SecLba(g, ch, q))
  }

  lemma DirSecsPlaces(g: Geometry, o: Owner, n: Node)
    requires g.Valid() && InVolume(g, n.ch) && Distinct(n.ch)
    ensures var secs := DirSecs(g, o, n.ch);
      && (forall i :: 0 <= i < |secs| ==> InNode(g, o, n, secs[i]) && secs[i] < g.tot)
      && (forall i, j :: 0 <= i < j < |secs| ==> secs[i] != secs[j])
  {
    hide SecLba, Geometry.ClusLba, Geometry.ClusOf, Geometry.Last, DirSecs, InNode;
    var secs := DirSecs(g, o, n.ch);
    forall i | 0 <= i < |secs| ensures InNode(g, o, n, secs[i]) && secs[i] < g.tot {
      DirSecPlace(g, o, n, i);
    }
    forall i, j | 0 <= i < j < |secs| ensures secs[i] != secs[j] {
      DirSecsApart(g, o, n, i, j);
    }
  }

  lemma DirSecPlace(g: Geometry, o: Owner, n: Node, i: nat)
    requires g.Valid() && InVolume(g, n.ch) && Distinct(n.ch) && i < |DirSecs(g, o, n.ch)|
    ensures InNode(g, o, n, DirSecs(g, o, n.ch)[i]) && DirSecs(g, o, n.ch)[i] < g.tot
  {
    hide SecLba, Geometry.ClusLba, Geometry.ClusOf, Geometry.Last;
    if !FlatRoot(g, o) {
      SecPlace(g, n.ch, i);
    }
  }

  lemma DirSecsApart(g: Geometry, o: Owner, n: Node, i: nat, j: nat)
    requires g.Valid() && InVolume(g, n.ch) && Distinct(n.ch) && i < j < |DirSecs(g, o, n.ch)|
    ensures DirSecs(g, o, n.ch)[i] != DirSecs(g, o, n.ch)[j]
  {
    hide SecLba, Geometry.ClusLba, Geometry.ClusOf, Geometry.Last;
    if !FlatRoot(g, o) {
      SectorIndex(n.ch, g.spc, i);
      SectorIndex(n.ch, g.spc, j);
      if SecLba(g, n.ch, i) == SecLba(g, n.ch, j) {
        SecInjective(g, n.ch, i, j);
      }
    }
  }

  lemma SectorNumber(g: Geometry, ch: seq<nat>, k: nat, s: nat) returns (q: nat)
    requires g.Valid() && k < |ch| && g.dataStart <= s && ch[k] == g.ClusOf(s)
    ensures q < |ch| * g.spc && SecLba(g, ch, q) == s
  {
    hide Geometry.Last;
    var n := s - g.dataStart;
    q := k * g.spc + n % g.spc;
    DivModUnique(|ch| * g.spc, g.spc, |ch|, 0);
    BlockWithin(k, n % g.spc, g.spc, |ch| * g.spc);
    assert n == n / g.spc * g.spc + n % g.spc;
  }

  /** Every sector of a directory is scanned. */
  lemma DirSecsAll(g: Geometry, o: Owner, n: Node, s: nat) returns (i: nat)
    requires g.Valid() && InVolume(g, n.ch) && InNode(g, o, n, s)
    ensures i < |DirSecs(g, o, n.ch)| && DirSecs(g, o, n.ch)[i] == s
  {
    if FlatRoot(g, o) {
      i := s - g.rootStart;
    } else {
      var k :| 0 <= k < |n.ch| && n.ch[k] == g.ClusOf(s);
      i := SectorNumber(g, n.ch, k, s);
    }
  }

  ghost predicate InDir(g: Geometry, nodes: Nodes, s: nat) {
    exists o :: o in nodes && nodes[o].dir && InNode(g, o, nodes[o], s)
  }

  // ---- directory entries ----

  predicate IsDirAttr(e: seq<byte>) requires |e| == 32 { e[11] as int / 0x10 % 2 == 1 }

  predicate IsVolume(e: seq<byte>) requires |e| == 32 { e[11] as int / 8 % 2 == 1 }

  /** Names that read as "." or "..", as a directory's links to itself and its parent do. */
  predicate LinkName(n: seq<byte>)
    requires |n| == 11
  {
    || (n[0] == 0x2E && (n[1] == 0x20 || (n[1] == 0x2E && n[2] == 0x20)) && n[8] == 0x20)
    || (n[0] == 0x20 && n[8] == 0x2E && n[9] == 0x20)
  }

  /** Not one of a directory's links to itself and its parent. A volume label counts as a file without clusters. */
  predicate Plain(e: seq<byte>) requires |e| == 32 { !LinkName(NameOf(e)) }

  function FirstClus(g: Geometry, e: seq<byte>): nat
    requires |e| == 32
  {
    Le16(e, 26) + if g.fat32 then 0x1_0000 * Le16(e, 20) else 0
  }

  function FileSize(e: seq<byte>): nat
    requires |e| == 32
  {
    Le32(e, 28)
  }

  // ---- the invariant ----

  ghost predicate Disjoint(a: seq<nat>, b: seq<nat>) { forall c :: c in a ==> c !in b }

  /** Every chain is well linked and no cluster belongs to two owners. */
  ghost predicate ChainsOk(g: Geometry, t: seq<nat>, nodes: Nodes) {
    && (forall o :: o in nodes ==> ChainOk(g, t, nodes[o].ch))
    && (forall o1, o2 :: o1 in nodes && o2 in nodes && o1 != o2 ==> Disjoint(nodes[o1].ch, nodes[o2].ch))
  }

  ghost predicate Proper(g: Geometry, o: Owner, n: Node) {
    && (if n.dir then n.size == 0 && (FlatRoot(g, o) <==> n.ch == [])
        else n.size <= Capacity(g, n.ch) && n.size < 0x1_0000_0000)
    && (o.Root? ==> n.dir && (g.fat32 ==> Head(n.ch) == g.rootClus))
    && (o.At? ==> o.sec < g.tot && o.off % 32 == 0 && o.off < SEC)
  }

  /** The owners form directories that hold each other's entries. */
  ghost predicate Shape(g: Geometry, nodes: Nodes) {
    && Root in nodes
    && (forall o :: o in nodes ==> Proper(g, o, nodes[o]))
    && (forall o :: o in nodes && o.At? ==> InDir(g, nodes, o.sec))
  }

  /** Descriptor `f` is an open file whose entry is at `o`. */
  predicate OpenOn(f: Fd, o: Owner) { f.used && !f.isDir && o == At(f.dirSec, f.dirOff) }

  ghost predicate Opened(fds: seq<Fd>, o: Owner) { exists i :: 0 <= i < |fds| && OpenOn(fds[i], o) }

  /** Open for writing: the descriptor may be ahead of the entry. */
  ghost predicate Writing(fds: seq<Fd>, o: Owner) {
    exists i :: 0 <= i < |fds| && OpenOn(fds[i], o) && fds[i].flags.write
  }

  /**
   * A file that nobody has open for writing may be opened once more for reading, and for writing if nobody has it open.
   */
  ghost predicate Sharable(fds: seq<Fd>, o: Owner, write: bool) { !Writing(fds, o) && (write ==> !Opened(fds, o)) }

  /** The entry names the node's first cluster and size. */
  ghost predicate Tied(g: Geometry, d: Disk, o: Owner, n: Node)
    requires o.At?
  {
    var e := EntOf(d, o.sec, o.off);
    FirstClus(g, e) == Head(n.ch) && (!n.dir ==> FileSize(e) == n.size)
  }

  /** An owner's entry is live and of its kind. */
  ghost predicate Listed(d: Disk, o: Owner, n: Node)
    requires o.At?
  {
    var e := EntOf(d, o.sec, o.off);
    Live(e) && Plain(e) && (IsDirAttr(e) <==> n.dir)
  }

  /** Entries agree with the nodes; a descriptor open for writing stands in for the entry of its file. */
  ghost predicate EntriesOk(g: Geometry, d: Disk, fds: seq<Fd>, nodes: Nodes) {
    forall o :: o in nodes && o.At? ==>
      Listed(d, o, nodes[o]) && (Writing(fds, o) || Tied(g, d, o, nodes[o]))
  }

  /** Every live entry of every directory is known. */
  ghost predicate Complete(g: Geometry, d: Disk, nodes: Nodes) {
    forall s, off ::
      (0 <= s < g.tot && 0 <= off < SEC && off % 32 == 0 && InDir(g, nodes, s) &&
       Live(EntOf(d, s, off)) && Plain(EntOf(d, s, off))) ==> At(s, off) in nodes
  }

  ghost predicate FdOk(f: Fd, nodes: Nodes) {
    f.used && !f.isDir ==>
      var o := At(f.dirSec, f.dirOff);
      o in nodes && !nodes[o].dir && f.start == Head(nodes[o].ch) && f.size == nodes[o].size && f.pos <= f.size
  }

  /** Open descriptors carry their file's start and size; a file open for writing is open once. */
  ghost predicate FdsOk(fds: seq<Fd>, nodes: Nodes) {
    && (forall i :: 0 <= i < |fds| ==> FdOk(fds[i], nodes))
    && (forall i, j, o :: 0 <= i < |fds| && 0 <= j < |fds| && i != j && fds[i].flags.write ==>
          !(OpenOn(fds[i], o) && OpenOn(fds[j], o)))
  }

  ghost predicate DirsOk(g: Geometry, d: Disk, nodes: Nodes) {
    forall o :: o in nodes && nodes[o].dir ==> DirOk(d, DirSecs(g, o, nodes[o].ch))
  }

  /** What holds between any two calls of the driver. */
  ghost predicate Inv(g: Geometry, d: Disk, fds: seq<Fd>, nodes: Nodes) {
    && Fits(g, d) && Mirrored(g, d) && InRange(g, Table(g, d))
    && ChainsOk(g, Table(g, d), nodes)
    && Shape(g, nodes)
    && EntriesOk(g, d, fds, nodes)
    && Complete(g, d, nodes)
    && FdsOk(fds, nodes)
    && DirsOk(g, d, nodes)
  }

  /** The disk can be accounted for: some directories and files satisfy the invariant on it. */
  ghost predicate Sound(g: Geometry, d: Disk, fds: seq<Fd>) { exists nodes :: Inv(g, d, fds, nodes) }

  lemma ChainInVolume(g: Geometry, t: seq<nat>, ch: seq<nat>)
    requires g.Valid() && |t| == g.Last() && ChainOk(g, t, ch)
    ensures InVolume(g, ch) && Distinct(ch)
  {
  }

  // ---- what a user of the volume sees ----

  /** The bytes of a file. */
  ghost function FileBytes(g: Geometry, d: Disk, n: Node): (s: seq<byte>)
    ensures |s| == n.size
  {
    Content(g, d, n.ch, n.size)
  }

  /** The names in a directory. */
  ghost function DirNames(g: Geometry, d: Disk, o: Owner, n: Node): map<seq<byte>, nat> {
    Names(d, DirSecs(g, o, n.ch))
  }

  // ---- frames ----

  /** Only table sectors changed. */
  ghost predicate OnlyFat(g: Geometry, d: Disk, d': Disk) {
    |d'| == |d| && forall lba :: 0 <= lba < |d| && !g.InFat(lba) ==> d'[lba] == d[lba]
  }

  /** Only data sectors of the clusters `xs` changed. */
  ghost predicate OnlyData(g: Geometry, d: Disk, d': Disk, xs: seq<nat>) {
    |d'| == |d| && forall lba :: 0 <= lba < |d| && (lba < g.dataStart || g.ClusOf(lba) !in xs) ==> d'[lba] == d[lba]
  }

  lemma TableFrame(g: Geometry, d: Disk, d': Disk)
    requires Fits(g, d) && Fits(g, d')
    requires forall lba :: 0 <= lba < |d| && g.InFat(lba) ==> d'[lba] == d[lba]
    ensures Table(g, d') == Table(g, d)
    ensures Mirrored(g, d) ==> Mirrored(g, d')
  {
    forall copy, c | 0 <= copy < g.fats && 0 <= c < g.Last() ensures EntryAt(g, d', copy, c) == EntryAt(g, d, copy, c) {
      EntryPlace(g, copy, c);
    }
  }

  /** Sectors of directories lie behind the table. */
  lemma DirBehindFat(g: Geometry, nodes: Nodes, s: nat)
    requires g.Valid() && InDir(g, nodes, s)
    ensures !g.InFat(s) && g.rootStart <= s
  {
  }

  /** If no directory sector changed, entries and directories are as before. */
  lemma EntriesFrame(g: Geometry, d: Disk, d': Disk, fds: seq<Fd>, nodes: Nodes)
    requires Fits(g, d) && Fits(g, d') && Shape(g, nodes) && EntriesOk(g, d, fds, nodes) && Complete(g, d, nodes)
    requires DirsOk(g, d, nodes)
    requires forall s :: 0 <= s < g.tot && InDir(g, nodes, s) ==> d'[s] == d[s]
    requires forall o :: o in nodes ==> InVolume(g, nodes[o].ch) && Distinct(nodes[o].ch)
    ensures EntriesOk(g, d', fds, nodes) && Complete(g, d', nodes) && DirsOk(g, d', nodes)
    ensures forall o :: o in nodes && nodes[o].dir ==> DirNames(g, d', o, nodes[o]) == DirNames(g, d, o, nodes[o])
  {
    hide DirOk, DirSecs, InNode, Fits, Names, Proper, Plain, Live, IsDirAttr, FirstClus, FileSize;
    FitsSizes(g, d);
    FitsSizes(g, d');
    FramedDirs(g, d, d', nodes);
    SameEntries(g, d, d', nodes);
    FramedEntries(g, d, d', fds, nodes);
  }

  lemma FramedEntries(g: Geometry, d: Disk, d': Disk, fds: seq<Fd>, nodes: Nodes)
    requires Shape(g, nodes) && EntriesOk(g, d, fds, nodes) && Complete(g, d, nodes)
    requires forall s, off :: 0 <= s < g.tot && InDir(g, nodes, s) && 0 <= off < SEC && off % 32 == 0 ==>
               EntOf(d', s, off) == EntOf(d, s, off)
    ensures EntriesOk(g, d', fds, nodes) && Complete(g, d', nodes)
  {
    hide InDir, Live, Plain, IsDirAttr, FirstClus, FileSize, Writing;
  }

  lemma FitsSizes(g: Geometry, d: Disk)
    requires Fits(g, d)
    ensures |d| == g.tot && g.Valid()
  {
  }

  lemma SameEntries(g: Geometry, d: Disk, d': Disk, nodes: Nodes)
    requires |d| == |d'| == g.tot
    requires forall s :: 0 <= s < g.tot && InDir(g, nodes, s) ==> d'[s] == d[s]
    ensures forall s, off :: 0 <= s < g.tot && InDir(g, nodes, s) && 0 <= off < SEC && off % 32 == 0 ==>
              EntOf(d', s, off) == EntOf(d, s, off)
  {
    hide InDir;
  }

  lemma FramedDirs(g: Geometry, d: Disk, d': Disk, nodes: Nodes)
    requires Fits(g, d) && Fits(g, d') && DirsOk(g, d, nodes)
    requires forall s :: 0 <= s < g.tot && InDir(g, nodes, s) ==> d'[s] == d[s]
    requires forall o :: o in nodes ==> InVolume(g, nodes[o].ch) && Distinct(nodes[o].ch)
    ensures DirsOk(g, d', nodes)
    ensures forall o :: o in nodes && nodes[o].dir ==> DirNames(g, d', o, nodes[o]) == DirNames(g, d, o, nodes[o])
  {
    hide DirOk, DirSecs, InNode, InVolume, Distinct, Names;
    forall o | o in nodes && nodes[o].dir
      ensures DirOk(d', DirSecs(g, o, nodes[o].ch))
      ensures Names(d', DirSecs(g, o, nodes[o].ch)) == Names(d, DirSecs(g, o, nodes[o].ch))
    {
      DirSecsPlaces(g, o, nodes[o]);
      DirFrame(d, d', DirSecs(g, o, nodes[o].ch));
    }
  }

  /** Writing data sectors of clusters no directory owns keeps the invariant and every file without those clusters. */
  lemma DataStep(g: Geometry, d: Disk, d': Disk, fds: seq<Fd>, nodes: Nodes, xs: seq<nat>)
    requires Inv(g, d, fds, nodes) && OnlyData(g, d, d', xs)
    requires forall o :: o in nodes && nodes[o].dir ==> Disjoint(nodes[o].ch, xs)
    ensures Inv(g, d', fds, nodes) && Table(g, d') == Table(g, d)
    ensures forall o :: o in nodes && !nodes[o].dir && Disjoint(nodes[o].ch, xs) ==>
              FileBytes(g, d', nodes[o]) == FileBytes(g, d, nodes[o])
    ensures forall o :: o in nodes && nodes[o].dir ==> DirNames(g, d', o, nodes[o]) == DirNames(g, d, o, nodes[o])
  {
    TableFrame(g, d, d');
    forall o | o in nodes ensures InVolume(g, nodes[o].ch) && Distinct(nodes[o].ch) {
      ChainInVolume(g, Table(g, d), nodes[o].ch);
    }
    EntriesFrame(g, d, d', fds, nodes);
    forall o | o in nodes && !nodes[o].dir && Disjoint(nodes[o].ch, xs)
      ensures FileBytes(g, d', nodes[o]) == FileBytes(g, d, nodes[o])
    {
      ContentFrame(g, d, d', nodes[o].ch, nodes[o].size);
    }
  }
}
