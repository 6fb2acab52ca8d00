/** What is left of a volume when a file was opened whose entry was not found again, and closed. */
module FatLost {
  import opened Wrappers
  import opened Bytes
  import opened FatTable
  import opened FatChain
  import opened FatDir
  import opened FatState
  import opened FatSteps
  import opened FatDirSteps
  import opened FatFormat
  import opened FatDriver
  import opened FatPath
  import opened FatNames
  import opened FatText
  import opened FatMount

  /** The descriptors when descriptor `r` is closed. */
  function Closed(fds: seq<Fd>, r: int): seq<Fd>
    requires 0 <= r - FD_BASE < |fds|
  {
    fds[r - FD_BASE := fds[r - FD_BASE].(used := false)]
  }

  /** The file at a path has clusters. */
  ghost predicate HasClusters(nodes: Nodes, o: Option<Owner>) { o.Some? && o.value in nodes && nodes[o.value].ch != [] }

  // ---- every account of a disk has the directories that paths lead to ----

  /** `x` is a directory of the other account too, with the same clusters. */
  ghost predicate SameDir(nodes: Nodes, nodes': Nodes, x: Owner) {
    x in nodes && nodes[x].dir && x in nodes' && nodes'[x].dir && nodes'[x].ch == nodes[x].ch
  }

  /** A directory starting at the same cluster has the same clusters, if its chain was left alone. */
  lemma SameChain(g: Geometry, t: seq<nat>, t': seq<nat>, ch: seq<nat>, c: seq<nat>)
    requires |t| == |t'| && ChainOk(g, t, ch) && ChainOk(g, t', c) && Head(c) == Head(ch)
    requires forall q :: q in ch && q < |t| ==> t'[q] == t[q]
    ensures c == ch
  {
    if ch != [] && c != [] {
      ChainFrame(g, t, t', ch);
      ChainUnique(g, t', ch, c);
    }
  }

  lemma ChainLeft(g: Geometry, d: Disk, fds: seq<Fd>, nodes: Nodes, d': Disk, o: Owner, x: Owner)
    requires Inv(g, d, fds, nodes) && x in nodes && x != o && o in nodes && Released(g, d, d', nodes[o].ch)
    ensures |Table(g, d')| == |Table(g, d)| && ChainOk(g, Table(g, d), nodes[x].ch)
    ensures forall q :: q in nodes[x].ch && q < |Table(g, d)| ==> Table(g, d')[q] == Table(g, d)[q]
  {
    hide EntriesOk, Complete, DirsOk, FdsOk, Shape, Mirrored, InRange, Table, OnlyFat;
    assert Disjoint(nodes[x].ch, nodes[o].ch);
  }

  lemma RootSame(g: Geometry, d: Disk, fds: seq<Fd>, nodes: Nodes, d': Disk, fds': seq<Fd>, nodes': Nodes, o: Owner)
    requires Inv(g, d, fds, nodes) && Inv(g, d', fds', nodes') && o in nodes && o.At? && Released(g, d, d', nodes[o].ch)
    ensures SameDir(nodes, nodes', Root)
  {
    ChainLeft(g, d, fds, nodes, d', o, Root);
    hide EntriesOk, Complete, DirsOk, FdsOk, Mirrored, InRange, Table, InDir, Released;
    assert Proper(g, Root, nodes[Root]) && Proper(g, Root, nodes'[Root]);
    SameChain(g, Table(g, d), Table(g, d'), nodes[Root].ch, nodes'[Root].ch);
  }

  /** An entry of a directory both accounts have is in both, and tells the same cluster. */
  lemma EntrySame(g: Geometry, d: Disk, fds: seq<Fd>, nodes: Nodes, d': Disk, fds': seq<Fd>, nodes': Nodes, x: Owner,
                  y: Owner)
    requires Inv(g, d, fds, nodes) && Inv(g, d', fds', nodes') && OnlyFat(g, d, d')
    requires SameDir(nodes, nodes', x) && y in nodes && y.At? && InNode(g, x, nodes[x], y.sec)
    ensures y in nodes' && nodes'[y].dir == nodes[y].dir
    ensures !Writing(fds, y) && !Writing(fds', y) ==> Head(nodes'[y].ch) == Head(nodes[y].ch)
  {
    hide DirsOk, FdsOk, Mirrored, InRange, Table, ChainsOk, Writing, FirstClus, Live, InNode, InDir, Plain, IsDirAttr;
    assert Proper(g, y, nodes[y]) && Listed(d, y, nodes[y]);
    InItsDir(g, nodes', x, y.sec);
    InItsDir(g, nodes, x, y.sec);
    DirBehindFat(g, nodes, y.sec);
    assert InNode(g, x, nodes'[x], y.sec) by { SameIn(g, x, nodes[x], nodes'[x], y.sec); }
    hide Shape, Listed;
    assert EntOf(d', y.sec, y.off) == EntOf(d, y.sec, y.off);
    assert At(y.sec, y.off) in nodes';
  }

  lemma SameIn(g: Geometry, x: Owner, n: Node, n': Node, s: nat)
    requires n.ch == n'.ch
    ensures InNode(g, x, n, s) <==> InNode(g, x, n', s)
  {
  }

  /** No descriptor is on a directory's entry. */
  lemma DirUnwritten(g: Geometry, d: Disk, fds: seq<Fd>, nodes: Nodes, x: Owner)
    requires Inv(g, d, fds, nodes) && x in nodes && nodes[x].dir
    ensures !Writing(fds, x)
  {
    hide EntriesOk, Complete, DirsOk, ChainsOk, Shape, Mirrored, InRange, Table;
  }

  /** Where a component of a path leads lies in the directory before it. */
  lemma StepDown(g: Geometry, d: Disk, fds: seq<Fd>, nodes: Nodes, p: Path)
    requires Inv(g, d, fds, nodes) && Clean(p) && p != [] && Reach(g, d, nodes, p).Some?
    ensures var x, y := Reach(g, d, nodes, p[..|p| - 1]), Reach(g, d, nodes, p).value;
      && x.Some? && x.value in nodes && nodes[x.value].dir && y in nodes && y.At?
      && InNode(g, x.value, nodes[x.value], y.sec)
      && (nodes[y].dir ==> DirAt(g, d, nodes, p)) && DirAt(g, d, nodes, p[..|p| - 1])
  {
    hide Inv, InNode, Usable, DirNames, Named;
    LookKnown(g, d, fds, nodes, Reach(g, d, nodes, p[..|p| - 1]).value, p[|p| - 1]);
  }

  lemma {:induction false} DirsSame(g: Geometry, d: Disk, fds: seq<Fd>, nodes: Nodes, d': Disk, fds': seq<Fd>,
                                    nodes': Nodes, o: Owner, p: Path)
    requires Inv(g, d, fds, nodes) && Inv(g, d', fds', nodes') && o in nodes && o.At? && !nodes[o].dir
    requires Released(g, d, d', nodes[o].ch) && Clean(p) && DirAt(g, d, nodes, p)
    ensures SameDir(nodes, nodes', Reach(g, d, nodes, p).value)
  {
    hide Inv, Released, InNode, Usable, Table, Reach, Writing;
    if p == [] {
      ReachRoot(g, d, nodes);
      RootSame(g, d, fds, nodes, d', fds', nodes', o);
    } else {
      var q := p[..|p| - 1];
      StepDown(g, d, fds, nodes, p);
      DirsSame(g, d, fds, nodes, d', fds', nodes', o, q);
      DirSameBelow(g, d, fds, nodes, d', fds', nodes', o, Reach(g, d, nodes, q).value, Reach(g, d, nodes, p).value);
    }
  }

  lemma DirSameBelow(g: Geometry, d: Disk, fds: seq<Fd>, nodes: Nodes, d': Disk, fds': seq<Fd>, nodes': Nodes, o: Owner,
                     x: Owner, y: Owner)
    requires Inv(g, d, fds, nodes) && Inv(g, d', fds', nodes') && o in nodes && !nodes[o].dir
    requires Released(g, d, d', nodes[o].ch) && SameDir(nodes, nodes', x)
    requires y in nodes && nodes[y].dir && y.At? && InNode(g, x, nodes[x], y.sec)
    ensures SameDir(nodes, nodes', y)
  {
    hide Inv, InNode, Table, Writing, OnlyFat, Mirrored, Cleared;
    EntrySame(g, d, fds, nodes, d', fds', nodes', x, y);
    hide Released;
    DirUnwritten(g, d, fds, nodes, y);
    DirUnwritten(g, d', fds', nodes', y);
    ChainLeft(g, d, fds, nodes, d', o, y);
    AccountChain(g, d', fds', nodes', y);
    SameChain(g, Table(g, d), Table(g, d'), nodes[y].ch, nodes'[y].ch);
  }

  lemma AccountChain(g: Geometry, d: Disk, fds: seq<Fd>, nodes: Nodes, y: Owner)
    requires Inv(g, d, fds, nodes) && y in nodes
    ensures ChainOk(g, Table(g, d), nodes[y].ch)
  {
    hide EntriesOk, Complete, DirsOk, FdsOk, Shape, Mirrored, InRange, Table;
  }

  // ---- the file itself ----

  /** A file that starts at a cluster which was given back is in no account of the disk. */
  lemma GoneStart(g: Geometry, d: Disk, fds: seq<Fd>, nodes: Nodes, d': Disk, fds': seq<Fd>, nodes': Nodes, p: Path)
    requires Inv(g, d, fds, nodes) && Clean(p) && FileAt(g, d, nodes, p).Some?
    requires var o := Reach(g, d, nodes, p).value;
      && o in nodes && nodes[o].ch != [] && !Writing(fds, o) && !Writing(fds', o) && Released(g, d, d', nodes[o].ch)
    ensures !Inv(g, d', fds', nodes')
  {
    if Inv(g, d', fds', nodes') {
      hide Inv, Released, InNode, Table, Reach, Usable, Opened, OnlyFat;
      StartCleared(g, d, d', nodes[Reach(g, d, nodes, p).value].ch);
      ReachRoot(g, d, nodes);
      FileNotRoot(g, d, fds, nodes, p);
      var o := Reach(g, d, nodes, p).value;
      StepDown(g, d, fds, nodes, p);
      DirsSame(g, d, fds, nodes, d', fds', nodes', o, p[..|p| - 1]);
      StartTaken(g, d, fds, nodes, d', fds', nodes', Reach(g, d, nodes, p[..|p| - 1]).value, o);
    }
  }

  lemma FileNotRoot(g: Geometry, d: Disk, fds: seq<Fd>, nodes: Nodes, p: Path)
    requires Inv(g, d, fds, nodes) && FileAt(g, d, nodes, p).Some?
    ensures p != [] && Reach(g, d, nodes, p).value in nodes && !nodes[Reach(g, d, nodes, p).value].dir
  {
    hide EntriesOk, Complete, DirsOk, FdsOk, ChainsOk, Mirrored, InRange, Table, InDir;
    assert Proper(g, Root, nodes[Root]);
  }

  /** In any account of the disk, the cluster an entry starts with is taken. */
  lemma StartTaken(g: Geometry, d: Disk, fds: seq<Fd>, nodes: Nodes, d': Disk, fds': seq<Fd>, nodes': Nodes, x: Owner,
                   o: Owner)
    requires Inv(g, d, fds, nodes) && Inv(g, d', fds', nodes') && SameDir(nodes, nodes', x) && OnlyFat(g, d, d')
    requires o in nodes && o.At? && InNode(g, x, nodes[x], o.sec) && nodes[o].ch != [] && !Writing(fds, o)
    requires !Writing(fds', o)
    ensures 2 <= nodes[o].ch[0] < |Table(g, d')| && Table(g, d')[nodes[o].ch[0]] != 0
  {
    hide Inv, InNode, OnlyFat, Mirrored, Table;
    EntrySame(g, d, fds, nodes, d', fds', nodes', x, o);
    AccountChain(g, d, fds, nodes, o);
    AccountChain(g, d', fds', nodes', o);
    HeadTaken(g, Table(g, d), nodes[o].ch);
    HeadTaken(g, Table(g, d'), nodes'[o].ch);
  }

  lemma StartCleared(g: Geometry, d: Disk, d': Disk, ch: seq<nat>)
    requires Released(g, d, d', ch) && ch != []
    ensures OnlyFat(g, d, d') && (ch[0] < |Table(g, d')| ==> Table(g, d')[ch[0]] == 0)
  {
    hide Table, OnlyFat, Mirrored;
  }

  lemma HeadTaken(g: Geometry, t: seq<nat>, ch: seq<nat>)
    requires ChainOk(g, t, ch) && ch != []
    ensures 2 <= ch[0] < |t| && t[ch[0]] != 0
  {
    assert |ch| > 1 ==> t[ch[0]] == ch[1];
  }

  // ---- opening and closing ----

  lemma ClosedSlot(fds: seq<Fd>, i: nat, f: Fd, o: Owner)
    requires i < |fds| && !f.used && !Writing(fds, o)
    ensures !Writing(fds[i := f], o)
  {
  }

  /** Descriptors that are not in use do not matter. */
  lemma UnusedSlot(g: Geometry, d: Disk, fds: seq<Fd>, nodes: Nodes, i: nat, f: Fd)
    requires Inv(g, d, fds, nodes) && i < |fds| && !fds[i].used && !f.used
    ensures Inv(g, d, fds[i := f], nodes)
  {
    hide Inv;
    var fds' := fds[i := f.(used := true, isDir := true)];
    OpenStep(g, d, fds, nodes, i, fds'[i]);
    CloseStep(g, d, fds', nodes, i, f);
    assert fds'[i := f] == fds[i := f];
  }

  /** Closing makes good what opening did unless clusters of the file were given back. */
  lemma LostClosed(g: Geometry, d: Disk, fds: seq<Fd>, nodes: Nodes, d': Disk, fds': seq<Fd>, p: Path, flags: Flags,
                   r: int)
    requires Inv(g, d, fds, nodes) && Clean(p) && FileAt(g, d, nodes, p).Some?
    requires Sharable(fds, Reach(g, d, nodes, p).value, flags.write)
    requires LostOpened(g, d, nodes, fds, d', fds', Reach(g, d, nodes, p).value, flags, r)
    ensures 0 <= r - FD_BASE < |fds'|
    ensures Sound(g, d', Closed(fds', r)) <==>
      !(flags.trunc && flags.write && HasClusters(nodes, Reach(g, d, nodes, p)))
  {
    NothingSeen(g, d, nodes, p);
    hide Inv, Released, Reach, Opened, FileAt;
    var i := r - FD_BASE;
    var f := fds'[i].(used := false);
    assert Closed(fds', r) == fds[i := f];
    ClosedSlot(fds, i, f, Reach(g, d, nodes, p).value);
    if flags.trunc && flags.write && HasClusters(nodes, Reach(g, d, nodes, p)) {
      forall nodes' ensures !Inv(g, d', Closed(fds', r), nodes') {
        GoneStart(g, d, fds, nodes, d', fds[i := f], nodes', p);
      }
    } else {
      UnusedSlot(g, d, fds, nodes, i, f);
    }
  }

  /** A file that is there, and would not be found again. */
  ghost predicate LostBy(g: Geometry, d: Disk, nodes: Nodes, text: Text) {
    PathOf(text) != [] && Second(g, d, nodes, PathOf(text), LeafName(text)) == Nothing
  }

  /**
   * Opens what a text stands for and closes it again: the disk can be accounted for afterwards unless the file was
   * emptied and its entry not found again.
   */
  method OpenAndClose(v: Volume, text: Text, flags: Flags) returns (r: int)
    requires v.Valid() && Clean(PathOf(text)) && (LeafName(text).Some? ==> Usable(LeafName(text).value))
    requires AllSharable(v.g, v.disk, v.nodes, v.fdt[..], text, flags.write)
    modifies v`disk, v`nextFree, v`nodes, v.secbuf, v.fdt
    ensures LostBy(v.g, old(v.disk), old(v.nodes), text) ==> (r >= 0 <==> !NoFd(old(v.fdt[..])))
    ensures Sound(v.g, v.disk, v.fdt[..]) <==>
      !(r >= 0 && flags.trunc && flags.write && LostBy(v.g, old(v.disk), old(v.nodes), text)
        && HasClusters(old(v.nodes), Reach(v.g, old(v.disk), old(v.nodes), PathOf(text))))
  {
    hide Inv, PathOf, LeafName, Usable, Opened, Reach, FileAt, LostOpened, PathOpened, NoFd, HasClusters, OpenOn;
    ghost var d0, nodes0, fds0 := v.disk, v.nodes, v.fdt[..];
    r := OpenText(v, text, flags);
    if r < 0 {
      return;
    }
    ghost var d1, fds1 := v.disk, v.fdt[..];
    if LostBy(v.g, d0, nodes0, text) {
      LostClosed(v.g, d0, fds0, nodes0, d1, fds1, PathOf(text), flags, r);
      LostIsPlaceless(v.g, d0, nodes0, fds0, d1, fds1, Reach(v.g, d0, nodes0, PathOf(text)).value, flags, r);
    }
    var c := v.FatClose(r);
  }

  lemma LostIsPlaceless(g: Geometry, d: Disk, nodes: Nodes, fds: seq<Fd>, d': Disk, fds': seq<Fd>, o: Owner,
                        flags: Flags, r: int)
    requires LostOpened(g, d, nodes, fds, d', fds', o, flags, r)
    ensures Placeless(fds', r)
  {
  }

  // ---- the formatter's own disk ----

  /** "hello.txt" */
  const HELLO_TXT: Text := [0x68, 0x65, 0x6C, 0x6C, 0x6F, 0x2E, 0x74, 0x78, 0x74]

  /** "/disk/hello.txt/" */
  const HELLO_SLASH: Text := DISK + [SLASH] + HELLO_TXT + [SLASH]

  lemma HelloPacks()
    ensures Packed(HELLO_TXT) == HELLO
  {
    var s := HELLO_TXT;
    assert BaseEnd(s, 3) == BaseEnd(s, 4) == 5;
    assert BaseEnd(s, 0) == BaseEnd(s, 1) == BaseEnd(s, 2) == BaseEnd(s, 3);
    assert Pad(Uppers(s[..5]), 8) == HELLO[..8] && Pad(Uppers(s[6..9]), 3) == HELLO[8..];
  }

  lemma HelloPath()
    ensures PathOf(HELLO_SLASH) == [HELLO] && LeafName(HELLO_SLASH) == None && Usable(HELLO)
  {
    hide Parts;
    var s := [SLASH] + HELLO_TXT;
    assert Inside(HELLO_SLASH) == s + [SLASH] + [];
    PartsJoin(s, []);
    assert Joined([HELLO_TXT]) == s;
    JoinedParts([HELLO_TXT]);
    NoParts([], 0);
    HelloPacks();
    LeafLost(HELLO_SLASH);
  }

  /**
   * On a disk as the formatter makes it, opening "/disk/hello.txt/" to empty it and closing it leaves no sound disk.
   */
  method HelloLost(mb: nat, flags: Flags) returns (v: Volume)
    requires 0 < mb <= 128
    ensures fresh(v) && v.g == MadeGeometry(mb) && (Sound(v.g, v.disk, v.fdt[..]) <==> !(flags.trunc && flags.write))
  {
    hide Inv, MadeImage, MadeGeometry, MadeNodes, PathOf, LeafName, Usable, Reach, AllSharable, LostBy, HasClusters,
         Sound, NoFd;
    HelloReady(mb, seq(1, _ => CLOSED));
    v := new Volume(MadeGeometry(mb), MadeImage(mb), 1, MadeNodes(mb));
    var r := OpenAndClose(v, HELLO_SLASH, flags);
  }

  lemma HelloReady(mb: nat, fds: seq<Fd>)
    requires 0 < mb <= 128 && NoneOpen(fds) && fds != []
    ensures !NoFd(fds)
    ensures var g, d, nodes := MadeGeometry(mb), MadeImage(mb), MadeNodes(mb);
      && Inv(g, d, fds, nodes) && Clean(PathOf(HELLO_SLASH)) && LeafName(HELLO_SLASH) == None
      && (forall write :: AllSharable(g, d, nodes, fds, HELLO_SLASH, write)) && LostBy(g, d, nodes, HELLO_SLASH)
      && HasClusters(nodes, Reach(g, d, nodes, PathOf(HELLO_SLASH)))
  {
    hide Inv, MadeImage, MadeGeometry, MadeNodes, PathOf, LeafName, Usable, Reach, Second, HasClusters;
    assert !fds[0].used;
    MadeInv(mb, fds);
    HelloPath();
    HelloAt(mb);
  }

  lemma HelloAt(mb: nat)
    requires 0 < mb <= 128
    ensures var g, d, nodes := MadeGeometry(mb), MadeImage(mb), MadeNodes(mb);
      Second(g, d, nodes, [HELLO], None) == Nothing && HasClusters(nodes, Reach(g, d, nodes, [HELLO]))
  {
    hide MadeImage, MadeGeometry, FileBytes, Look;
    MadeHolds(mb);
    var g := MadeGeometry(mb);
    hide Reach;
  }
}
