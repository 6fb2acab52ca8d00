/** The volume as its users see it: a map from paths to the bytes of files, and what each call does to it. */
module FatPath {
  import opened Wrappers
  import opened Bytes
  import opened FatTable
  import opened FatChain
  import opened FatFile
  import opened FatDir
  import opened FatState
  import opened FatSteps
  import opened FatDirSteps
  import opened FatDriver

  /** A path from the root, each component packed to eleven bytes. */
  type Path = seq<seq<byte>>

  predicate Clean(p: Path) { forall i :: 0 <= i < |p| ==> Usable(p[i]) }

  /** What a name stands for in a directory, if that is a directory and has it. */
  ghost function Look(g: Geometry, d: Disk, nodes: Nodes, x: Owner, want: seq<byte>): Option<Owner> {
    if x in nodes && nodes[x].dir && want in DirNames(g, d, x, nodes[x]) then Some(Named(g, d, x, nodes[x], want))
      else None
  }

  /** What a path leads to from the root, if anything. */
  ghost function Reach(g: Geometry, d: Disk, nodes: Nodes, p: Path): Option<Owner> {
    if p == [] then Some(Root)
    else match Reach(g, d, nodes, p[..|p| - 1])
      case None => None
      case Some(x) => Look(g, d, nodes, x, p[|p| - 1])
  }

  /** The bytes of the file at a path; nothing where there is no file. */
  ghost function FileAt(g: Geometry, d: Disk, nodes: Nodes, p: Path): Option<seq<byte>> {
    match Reach(g, d, nodes, p)
    case None => None
    case Some(o) => if o in nodes && !nodes[o].dir then Some(FileBytes(g, d, nodes[o])) else None
  }

  ghost predicate DirAt(g: Geometry, d: Disk, nodes: Nodes, p: Path) {
    var r := Reach(g, d, nodes, p);
    r.Some? && r.value in nodes && nodes[r.value].dir
  }

  /** The directory at a path has no entry left for a new name, and none can be added. */
  ghost predicate FullAt(g: Geometry, d: Disk, nodes: Nodes, p: Path) {
    var x := Reach(g, d, nodes, p);
    x.Some? && x.value in nodes && DirFull(g, d, x.value, nodes[x.value].ch)
  }

  /** No cluster is left for a new directory at a path, or none besides it for its entry. */
  ghost predicate NoRoomAt(g: Geometry, d: Disk, nodes: Nodes, p: Path) {
    var x := Reach(g, d, nodes, p);
    x.Some? && x.value in nodes && NoRoomForDir(g, d, x.value, nodes[x.value].ch)
  }

  lemma RoomAt(g: Geometry, d: Disk, nodes: Nodes, p: Path, x: Owner)
    requires Reach(g, d, nodes, p) == Some(x) && x in nodes
    ensures FullAt(g, d, nodes, p) <==> DirFull(g, d, x, nodes[x].ch)
    ensures NoRoomAt(g, d, nodes, p) <==> NoRoomForDir(g, d, x, nodes[x].ch)
  {
    hide Reach, DirFull, NoRoomForDir;
  }

  // ---- every file has one path ----

  lemma LookKnown(g: Geometry, d: Disk, fds: seq<Fd>, nodes: Nodes, x: Owner, w: seq<byte>)
    requires Inv(g, d, fds, nodes) && Usable(w) && Look(g, d, nodes, x, w).Some?
    ensures var o := Look(g, d, nodes, x, w).value;
      o in nodes && o.At? && InNode(g, x, nodes[x], o.sec)
    ensures NameOf(OwnEnt(d, Look(g, d, nodes, x, w).value)) == w
  {
    hide Inv, Names, DirSecs, SlotOf, Usable, EntOf, Ent, InNode, Writing, InVolume, Distinct, FirstClus, Head;
    var secs, k := DirSecs(g, x, nodes[x].ch), DirNames(g, d, x, nodes[x])[w];
    assert Has(d, secs, k, w);
    FoundNode(g, d, fds, nodes, x, w, SlotOf(secs, k), Ent(d, secs, k));
    DirFacts(g, d, fds, nodes, x);
    DirSecsPlaces(g, x, nodes[x]);
  }

  lemma ReachKnown(g: Geometry, d: Disk, fds: seq<Fd>, nodes: Nodes, p: Path)
    requires Inv(g, d, fds, nodes) && Clean(p) && Reach(g, d, nodes, p).Some?
    ensures Reach(g, d, nodes, p).value in nodes && (p != [] <==> Reach(g, d, nodes, p).value.At?)
  {
    hide Look, InNode, EntriesOk, Complete, DirsOk, FdsOk, ChainsOk, Mirrored, Table, InRange, InDir;
    if p != [] {
      LookKnown(g, d, fds, nodes, Reach(g, d, nodes, p[..|p| - 1]).value, p[|p| - 1]);
    }
  }

  /** A directory entry stands in one directory under one name. */
  lemma LookInjective(g: Geometry, d: Disk, fds: seq<Fd>, nodes: Nodes, x: Owner, a: seq<byte>, y: Owner, b: seq<byte>)
    requires Inv(g, d, fds, nodes) && Usable(a) && Usable(b) && Look(g, d, nodes, x, a).Some?
    requires Look(g, d, nodes, x, a) == Look(g, d, nodes, y, b)
    ensures x == y && a == b
  {
    LookKnown(g, d, fds, nodes, x, a);
    LookKnown(g, d, fds, nodes, y, b);
    hide InNode, EntriesOk, Complete, DirsOk, FdsOk, Shape, Mirrored, Table, InRange, Names, DirSecs, Named;
    if x != y {
      SectorsApart(g, Table(g, d), nodes, x, y, Look(g, d, nodes, x, a).value.sec);
    }
  }

  /** Two paths to the same file or directory are the same path. */
  lemma {:induction false} PathsUnique(g: Geometry, d: Disk, fds: seq<Fd>, nodes: Nodes, p: Path, q: Path)
    requires Inv(g, d, fds, nodes) && Clean(p) && Clean(q)
    requires Reach(g, d, nodes, p).Some? && Reach(g, d, nodes, p) == Reach(g, d, nodes, q)
    ensures p == q
  {
    hide Inv, Look, Usable;
    ReachKnown(g, d, fds, nodes, p);
    ReachKnown(g, d, fds, nodes, q);
    if p != [] && q != [] {
      var p', q' := p[..|p| - 1], q[..|q| - 1];
      LookInjective(g, d, fds, nodes, Reach(g, d, nodes, p').value, p[|p| - 1], Reach(g, d, nodes, q').value,
                    q[|q| - 1]);
      PathsUnique(g, d, fds, nodes, p', q');
      assert p == p' + [p[|p| - 1]] && q == q' + [q[|q| - 1]];
    }
  }

  // ---- what changing one name does to all paths ----

  /**
   * Looking up any name in any known directory, except perhaps `want` in `x`, gives what it gave; `t` leads nowhere.
   */
  ghost predicate OneName(g: Geometry, d: Disk, nodes: Nodes, d': Disk, nodes': Nodes, x: Owner, want: seq<byte>,
                          t: Owner)
  {
    && (forall y, w :: y in nodes && y != t && Usable(w) && !(y == x && w == want) ==>
       Look(g, d', nodes', y, w) == Look(g, d, nodes, y, w))
    && (forall w :: Usable(w) ==> Look(g, d, nodes, t, w) == Look(g, d', nodes', t, w) == None)
    && Look(g, d, nodes, x, want) in {None, Some(t)} && Look(g, d', nodes', x, want) in {None, Some(t)}
  }

  lemma ReachOne(g: Geometry, d: Disk, nodes: Nodes, q: Path, w: seq<byte>)
    ensures var x := Reach(g, d, nodes, q); Reach(g, d, nodes, q + [w]) == if x.None? then None
      else Look(g, d, nodes, x.value, w)
  {
    hide Look;
    assert (q + [w])[..|q|] == q;
  }

  lemma ReachRoot(g: Geometry, d: Disk, nodes: Nodes)
    ensures Reach(g, d, nodes, []) == Some(Root)
  {
  }

  /** Changing what one name stands for changes what one path leads to. */
  lemma {:induction false} ReachStep(g: Geometry, d: Disk, fds: seq<Fd>, nodes: Nodes, d': Disk, nodes': Nodes,
                                     x: Owner, want: seq<byte>, t: Owner, p0: Path, p: Path)
    requires Inv(g, d, fds, nodes) && OneName(g, d, nodes, d', nodes', x, want, t)
    requires Clean(p0) && Usable(want) && Clean(p) && Reach(g, d, nodes, p0) == Some(x)
    ensures Reach(g, d', nodes', p) == if p == p0 + [want] then Look(g, d', nodes', x, want) else Reach(g, d, nodes, p)
  {
    hide Inv, Look, Usable, Reach;
    if p == [] {
      ReachRoot(g, d, nodes);
      ReachRoot(g, d', nodes');
    } else {
      var q, w := p[..|p| - 1], p[|p| - 1];
      assert p == q + [w];
      ReachOne(g, d, nodes, q, w);
      ReachOne(g, d', nodes', q, w);
      ReachStep(g, d, fds, nodes, d', nodes', x, want, t, p0, q);
      if q == p0 + [want] {
        assert q[..|q| - 1] == p0;
        ReachOne(g, d, nodes, p0, want);
      } else if Reach(g, d, nodes, q).Some? {
        ReachKnown(g, d, fds, nodes, q);
        if Reach(g, d, nodes, q) == Some(x) {
          PathsUnique(g, d, fds, nodes, q, p0);
        }
      }
      assert p == p0 + [want] ==> q == p0 && w == want;
    }
  }

  ghost predicate SameLooks(g: Geometry, d: Disk, nodes: Nodes, d': Disk, nodes': Nodes) {
    forall y, w :: y in nodes && Usable(w) ==> Look(g, d', nodes', y, w) == Look(g, d, nodes, y, w)
  }

  lemma {:induction false} ReachSame(g: Geometry, d: Disk, fds: seq<Fd>, nodes: Nodes, d': Disk, nodes': Nodes, p: Path)
    requires Inv(g, d, fds, nodes) && SameLooks(g, d, nodes, d', nodes') && Clean(p)
    ensures Reach(g, d', nodes', p) == Reach(g, d, nodes, p)
  {
    hide Inv, Look, Usable;
    if p != [] {
      var q := p[..|p| - 1];
      ReachSame(g, d, fds, nodes, d', nodes', q);
      if Reach(g, d, nodes, q).Some? {
        ReachKnown(g, d, fds, nodes, q);
      }
    }
  }

  /** A directory's old names stand for what they stood for when it has grown. */
  lemma NamedLonger(g: Geometry, d: Disk, d': Disk, x: Owner, n: Node, n': Node, w: seq<byte>)
    requires n.ch <= n'.ch && w in DirNames(g, d, x, n) && w in DirNames(g, d', x, n')
    requires DirNames(g, d', x, n')[w] == DirNames(g, d, x, n)[w]
    ensures Named(g, d', x, n', w) == Named(g, d, x, n, w)
  {
    var secs, secs' := DirSecs(g, x, n.ch), DirSecs(g, x, n'.ch);
    var k := DirNames(g, d, x, n)[w];
    assert Has(d, secs, k, w);
    hide Names, Ent;
    LongerSecs(g, x, n.ch, n'.ch, k / PER_SEC);
  }

  lemma PositiveFactor(a: nat, b: nat)
    requires a * b > 0
    ensures b > 0
  {
  }

  lemma LongerSecs(g: Geometry, x: Owner, ch: seq<nat>, ch': seq<nat>, i: nat)
    requires ch <= ch' && i < |DirSecs(g, x, ch)|
    ensures i < |DirSecs(g, x, ch')| && DirSecs(g, x, ch')[i] == DirSecs(g, x, ch)[i]
  {
    hide Geometry.ClusLba;
    if !FlatRoot(g, x) {
      MulMono(|ch|, |ch'|, g.spc);
      PositiveFactor(|ch|, g.spc);
      SectorIndex(ch, g.spc, i);
    }
  }

  /** In a directory that holds nothing there is nothing to look up; in a file neither. */
  lemma NothingToLook(g: Geometry, d: Disk, nodes: Nodes, o: Owner)
    requires o in nodes && nodes[o].dir ==> HoldsNothing(d, DirSecs(g, o, nodes[o].ch))
    ensures forall w :: Usable(w) ==> Look(g, d, nodes, o, w) == None
  {
    if o in nodes && nodes[o].dir {
      hide DirSecs, HoldsNothing, Usable;
      forall w | Usable(w) ensures w !in DirNames(g, d, o, nodes[o]) {
        HoldsNoName(d, DirSecs(g, o, nodes[o].ch), w);
      }
    }
  }

  lemma HoldsNoName(d: Disk, secs: seq<nat>, w: seq<byte>)
    requires HoldsNothing(d, secs) && Usable(w)
    ensures w !in Names(d, secs)
  {
    hide Names, Ent, LinkName;
    assert forall k :: !Has(d, secs, k, w);
  }

  // ---- the calls ----

  /** A node and its names unchanged: lookups unchanged. */
  lemma LookSame(g: Geometry, d: Disk, nodes: Nodes, d': Disk, nodes': Nodes, y: Owner)
    requires y in nodes && y in nodes' && nodes'[y] == nodes[y]
    requires nodes[y].dir ==> DirNames(g, d', y, nodes'[y]) == DirNames(g, d, y, nodes[y])
    ensures forall w :: Look(g, d', nodes', y, w) == Look(g, d, nodes, y, w)
  {
    hide DirSecs, Names;
  }

  /** A directory that has grown and perhaps lists one more name: lookups of other names unchanged. */
  lemma LookLonger(g: Geometry, d: Disk, nodes: Nodes, d': Disk, nodes': Nodes, x: Owner, want: seq<byte>)
    requires x in nodes && x in nodes' && nodes[x].dir && nodes'[x].dir && nodes[x].ch <= nodes'[x].ch
    requires var m, m' := DirNames(g, d, x, nodes[x]), DirNames(g, d', x, nodes'[x]);
      m' == m || (want in m' && m' == m[want := m'[want]])
    ensures forall w :: w != want ==> Look(g, d', nodes', x, w) == Look(g, d, nodes, x, w)
    ensures DirNames(g, d', x, nodes'[x]) == DirNames(g, d, x, nodes[x]) ==>
      Look(g, d', nodes', x, want) == Look(g, d, nodes, x, want)
  {
    hide Names, DirSecs, DirNames, Named;
    forall w | w in DirNames(g, d, x, nodes[x]) && DirNames(g, d', x, nodes'[x])[w] == DirNames(g, d, x, nodes[x])[w]
      ensures Named(g, d', x, nodes'[x], w) == Named(g, d, x, nodes[x], w)
    {
      NamedLonger(g, d, d', x, nodes[x], nodes'[x], w);
    }
  }

  lemma LookFewer(g: Geometry, d: Disk, nodes: Nodes, d': Disk, nodes': Nodes, x: Owner, want: seq<byte>)
    requires x in nodes && x in nodes' && nodes'[x] == nodes[x] && nodes[x].dir
    requires DirNames(g, d', x, nodes'[x]) == DirNames(g, d, x, nodes[x]) - {want}
    ensures forall w :: w != want ==> Look(g, d', nodes', x, w) == Look(g, d, nodes, x, w)
    ensures Look(g, d', nodes', x, want) == None
  {
    hide DirSecs, Names;
  }

  /** A name that was entered adds one lookup, and nothing else. */
  lemma AddedLooks(g: Geometry, d: Disk, nodes: Nodes, d': Disk, nodes': Nodes, x: Owner, want: seq<byte>)
    requires NameAdded(g, d, nodes, d', nodes', x, want) && DirsKept(g, d, nodes, d', nodes', {x}) && nodes[x].dir
    requires var o := Named(g, d', x, nodes'[x], want);
      nodes'[o].dir ==> HoldsNothing(d', DirSecs(g, o, nodes'[o].ch))
    ensures var o := Named(g, d', x, nodes'[x], want);
      && OneName(g, d, nodes, d', nodes', x, want, o)
      && Look(g, d, nodes, x, want) == None && Look(g, d', nodes', x, want) == Some(o)
  {
    hide Names, DirSecs, HoldsNothing, DirNames, Named, Usable;
    var o := Named(g, d', x, nodes'[x], want);
    NothingToLook(g, d', nodes', o);
    LookLonger(g, d, nodes, d', nodes', x, want);
    assert Look(g, d, nodes, x, want) == None && Look(g, d', nodes', x, want) == Some(o);
    forall y | y in nodes && y != o && y != x ensures forall w :: Look(g, d', nodes', y, w) == Look(g, d, nodes, y, w) {
      LookSame(g, d, nodes, d', nodes', y);
    }
    NoneKnown(g, d, nodes, o);
    hide Look;
  }

  lemma NoneKnown(g: Geometry, d: Disk, nodes: Nodes, o: Owner)
    requires o !in nodes
    ensures forall w :: Look(g, d, nodes, o, w) == None
  {
  }

  lemma RemovedLooks(g: Geometry, d: Disk, nodes: Nodes, d': Disk, nodes': Nodes, x: Owner, want: seq<byte>, o: Owner)
    requires x in nodes && nodes[x].dir && o in nodes && x != o && nodes' == nodes - {o}
    requires DirsKept(g, d, nodes, d', nodes', {o, x})
    requires Look(g, d, nodes, x, want) == Some(o)
    requires DirNames(g, d', x, nodes[x]) == DirNames(g, d, x, nodes[x]) - {want}
    requires nodes[o].dir ==> HoldsNothing(d, DirSecs(g, o, nodes[o].ch))
    ensures OneName(g, d, nodes, d', nodes', x, want, o) && Look(g, d', nodes', x, want) == None
  {
    hide Names, DirSecs, HoldsNothing, DirNames, Named, Usable, Look;
    NothingToLook(g, d, nodes, o);
    LookFewer(g, d, nodes, d', nodes', x, want);
    forall y | y in nodes && y != o && y != x ensures forall w :: Look(g, d', nodes', y, w) == Look(g, d, nodes, y, w) {
      LookSame(g, d, nodes, d', nodes', y);
    }
    NoneKnown(g, d', nodes', o);
  }

  /** Two volumes show the same, except that the file at `path` now is `c`. */
  ghost predicate OnePath(g: Geometry, d: Disk, nodes: Nodes, d': Disk, nodes': Nodes, path: Path, c: Option<seq<byte>>)
  {
    forall p :: Clean(p) ==> FileAt(g, d', nodes', p) == if p == path then c else FileAt(g, d, nodes, p)
  }

  ghost predicate SameDirs(g: Geometry, d: Disk, nodes: Nodes, d': Disk, nodes': Nodes, path: Path) {
    forall p :: Clean(p) && p != path ==> (DirAt(g, d', nodes', p) <==> DirAt(g, d, nodes, p))
  }

  /** Nodes other than `t` kept their kind. */
  ghost predicate SameKinds(nodes: Nodes, nodes': Nodes, t: Owner) {
    forall y :: y in nodes && y != t ==> y in nodes' && nodes'[y].dir == nodes[y].dir
  }

  lemma SeenAsBefore(g: Geometry, d: Disk, fds: seq<Fd>, nodes: Nodes, d': Disk, nodes': Nodes, p: Path, t: Owner)
    requires Inv(g, d, fds, nodes) && Clean(p) && Reach(g, d', nodes', p) == Reach(g, d, nodes, p) != Some(t)
    requires FilesKept(g, d, nodes, d', nodes', {t}) && SameKinds(nodes, nodes', t)
    ensures FileAt(g, d', nodes', p) == FileAt(g, d, nodes, p)
    ensures DirAt(g, d', nodes', p) <==> DirAt(g, d, nodes, p)
  {
    hide Inv, Reach, FileBytes;
    if Reach(g, d, nodes, p).Some? {
      ReachKnown(g, d, fds, nodes, p);
    }
  }

  /** Entering a name in the directory at `p0` adds what it stands for at `path` and changes no other path. */
  lemma AddedView(g: Geometry, d: Disk, fds: seq<Fd>, nodes: Nodes, d': Disk, nodes': Nodes, x: Owner, want: seq<byte>,
                  p0: Path, o: Owner, path: Path)
    requires Inv(g, d, fds, nodes) && Clean(p0) && Usable(want) && path == p0 + [want]
    requires Reach(g, d, nodes, p0) == Some(x) && x in nodes && nodes[x].dir
    requires x in nodes' && o == Named(g, d', x, nodes'[x], want) && NameAdded(g, d, nodes, d', nodes', x, want)
    requires FilesKept(g, d, nodes, d', nodes', {o}) && DirsKept(g, d, nodes, d', nodes', {x})
    requires o in nodes' && (nodes'[o].dir ==> HoldsNothing(d', DirSecs(g, o, nodes'[o].ch)))
    ensures Reach(g, d, nodes, path) == None && Reach(g, d', nodes', path) == Some(o)
    ensures OnePath(g, d, nodes, d', nodes', path, if nodes'[o].dir then None else Some(FileBytes(g, d', nodes'[o])))
    ensures SameDirs(g, d, nodes, d', nodes', path)
  {
    hide Inv, Look, Usable, Named, FilesKept, HoldsNothing, DirsKept, FileBytes, NameAdded, Reach, DirSecs;
    AddedLooks(g, d, nodes, d', nodes', x, want);
    AddedKinds(g, d, nodes, d', nodes', x, want);
    OnTop(g, d, nodes, x, want, p0);
    forall p | Clean(p)
      ensures Reach(g, d', nodes', p) == if p == path then Some(o) else Reach(g, d, nodes, p)
      ensures p != path ==>
        FileAt(g, d', nodes', p) == FileAt(g, d, nodes, p) && (DirAt(g, d', nodes', p) <==> DirAt(g, d, nodes, p))
    {
      ReachStep(g, d, fds, nodes, d', nodes', x, want, o, p0, p);
      hide FileAt, DirAt, OneName;
      if p != path {
        NotYet(g, d, fds, nodes, p, o);
        SeenAsBefore(g, d, fds, nodes, d', nodes', p, o);
      }
    }
    hide OneName;
    assert Clean(path);
  }

  lemma AddedKinds(g: Geometry, d: Disk, nodes: Nodes, d': Disk, nodes': Nodes, x: Owner, want: seq<byte>)
    requires NameAdded(g, d, nodes, d', nodes', x, want) && nodes[x].dir
    ensures var o := Named(g, d', x, nodes'[x], want); SameKinds(nodes, nodes', o) && o !in nodes && o in nodes'
  {
    hide Named, DirNames;
  }

  lemma NotYet(g: Geometry, d: Disk, fds: seq<Fd>, nodes: Nodes, p: Path, o: Owner)
    requires Inv(g, d, fds, nodes) && Clean(p) && o !in nodes
    ensures Reach(g, d, nodes, p) != Some(o)
  {
    hide Inv, Reach;
    if Reach(g, d, nodes, p).Some? {
      ReachKnown(g, d, fds, nodes, p);
    }
  }

  lemma OnTop(g: Geometry, d: Disk, nodes: Nodes, x: Owner, want: seq<byte>, p0: Path)
    requires Reach(g, d, nodes, p0) == Some(x)
    ensures Reach(g, d, nodes, p0 + [want]) == Look(g, d, nodes, x, want)
  {
    assert (p0 + [want])[..|p0|] == p0;
  }

  /** Deleting the name at the end of a path removes that path and changes no other. */
  lemma RemovedView(g: Geometry, d: Disk, fds: seq<Fd>, nodes: Nodes, d': Disk, nodes': Nodes, x: Owner,
                    want: seq<byte>, o: Owner, p0: Path, path: Path)
    requires Inv(g, d, fds, nodes) && Clean(p0) && Usable(want) && path == p0 + [want]
    requires Reach(g, d, nodes, p0) == Some(x) && x in nodes && nodes[x].dir && o in nodes && nodes' == nodes - {o}
    requires Look(g, d, nodes, x, want) == Some(o)
    requires x in nodes' && DirNames(g, d', x, nodes'[x]) == DirNames(g, d, x, nodes[x]) - {want}
    requires FilesKept(g, d, nodes, d', nodes', {o}) && DirsKept(g, d, nodes, d', nodes', {o, x})
    requires nodes[o].dir ==> HoldsNothing(d, DirSecs(g, o, nodes[o].ch))
    ensures Reach(g, d', nodes', path) == None
    ensures OnePath(g, d, nodes, d', nodes', path, None) && SameDirs(g, d, nodes, d', nodes', path)
  {
    hide Inv, Look, Usable, FilesKept, HoldsNothing, DirsKept, FileBytes, DirNames, DirSecs, Reach, OneName;
    RemovedLooks(g, d, nodes, d', nodes', x, want, o);
    OnTop(g, d, nodes, x, want, p0);
    assert Clean(path);
    forall p | Clean(p)
      ensures Reach(g, d', nodes', p) == if p == path then None else Reach(g, d, nodes, p)
      ensures p != path ==>
        FileAt(g, d', nodes', p) == FileAt(g, d, nodes, p) && (DirAt(g, d', nodes', p) <==> DirAt(g, d, nodes, p))
    {
      ReachStep(g, d, fds, nodes, d', nodes', x, want, o, p0, p);
      hide FileAt, DirAt;
      if Reach(g, d, nodes, p) == Some(o) {
        PathsUnique(g, d, fds, nodes, p, path);
      } else {
        SeenAsBefore(g, d, fds, nodes, d', nodes', p, o);
      }
    }
  }

  /** Changing a file's clusters and bytes changes what is seen at its path and at no other. */
  lemma FileView(g: Geometry, d: Disk, fds: seq<Fd>, nodes: Nodes, d': Disk, nodes': Nodes, o: Owner)
    requires Inv(g, d, fds, nodes) && o in nodes && o in nodes' && nodes' == nodes[o := nodes'[o]] && !nodes[o].dir
    requires !nodes'[o].dir
    requires FilesKept(g, d, nodes, d', nodes', {o}) && DirsKept(g, d, nodes, d', nodes', {})
    ensures forall p :: Clean(p) ==> Reach(g, d', nodes', p) == Reach(g, d, nodes, p)
    ensures forall p :: Clean(p) ==>
      FileAt(g, d', nodes', p) == if Reach(g, d, nodes, p) == Some(o) then Some(FileBytes(g, d', nodes'[o]))
        else FileAt(g, d, nodes, p)
    ensures forall p :: Clean(p) ==> (DirAt(g, d', nodes', p) <==> DirAt(g, d, nodes, p))
  {
    hide Inv, Look, Usable, FilesKept, FileBytes, DirNames;
    forall y | y in nodes ensures forall w :: Look(g, d', nodes', y, w) == Look(g, d, nodes, y, w) {
      if y == o {
        FileLooks(g, d, nodes, o);
        FileLooks(g, d', nodes', o);
      } else {
        LookSame(g, d, nodes, d', nodes', y);
      }
    }
    hide DirsKept;
    forall p | Clean(p)
      ensures Reach(g, d', nodes', p) == Reach(g, d, nodes, p)
      ensures FileAt(g, d', nodes', p) == if Reach(g, d, nodes, p) == Some(o) then Some(FileBytes(g, d', nodes'[o]))
        else FileAt(g, d, nodes, p)
      ensures DirAt(g, d', nodes', p) <==> DirAt(g, d, nodes, p)
    {
      ReachSame(g, d, fds, nodes, d', nodes', p);
      hide Reach;
      if Reach(g, d, nodes, p) != Some(o) {
        SeenAsBefore(g, d, fds, nodes, d', nodes', p, o);
      }
    }
  }

  lemma FileLooks(g: Geometry, d: Disk, nodes: Nodes, o: Owner)
    requires o in nodes && !nodes[o].dir
    ensures forall w :: Look(g, d, nodes, o, w) == None
  {
  }

  /** More free entries in a directory change nothing that is seen. */
  lemma LongerView(g: Geometry, d: Disk, fds: seq<Fd>, nodes: Nodes, d': Disk, nodes': Nodes, x: Owner)
    requires Inv(g, d, fds, nodes) && x in nodes && nodes[x].dir && DirLonger(g, d, nodes, d', nodes', x)
    requires FilesKept(g, d, nodes, d', nodes', {}) && DirsKept(g, d, nodes, d', nodes', {x})
    ensures forall p :: Clean(p) ==> Reach(g, d', nodes', p) == Reach(g, d, nodes, p)
    ensures forall p :: Clean(p) ==> FileAt(g, d', nodes', p) == FileAt(g, d, nodes, p)
    ensures forall p :: Clean(p) ==> (DirAt(g, d', nodes', p) <==> DirAt(g, d, nodes, p))
  {
    hide Inv, Look, Usable, FileBytes, DirNames;
    forall y | y in nodes ensures forall w :: Look(g, d', nodes', y, w) == Look(g, d, nodes, y, w) {
      if y == x {
        LookLonger(g, d, nodes, d', nodes', x, []);
      } else {
        LookSame(g, d, nodes, d', nodes', y);
      }
    }
    hide DirsKept;
    forall p | Clean(p)
      ensures Reach(g, d', nodes', p) == Reach(g, d, nodes, p)
      ensures FileAt(g, d', nodes', p) == FileAt(g, d, nodes, p)
      ensures DirAt(g, d', nodes', p) <==> DirAt(g, d, nodes, p)
    {
      ReachSame(g, d, fds, nodes, d', nodes', p);
      hide Reach, FilesKept;
      if Reach(g, d, nodes, p).Some? {
        ReachKnown(g, d, fds, nodes, p);
      }
      LongerSeen(g, d, nodes, d', nodes', p);
    }
  }

  lemma LongerSeen(g: Geometry, d: Disk, nodes: Nodes, d': Disk, nodes': Nodes, p: Path)
    requires Reach(g, d', nodes', p) == Reach(g, d, nodes, p) && FilesKept(g, d, nodes, d', nodes', {})
    requires Reach(g, d, nodes, p).Some? ==> Reach(g, d, nodes, p).value in nodes
    requires forall y :: y in nodes ==> y in nodes' && nodes'[y].dir == nodes[y].dir
    ensures FileAt(g, d', nodes', p) == FileAt(g, d, nodes, p)
    ensures DirAt(g, d', nodes', p) <==> DirAt(g, d, nodes, p)
  {
    hide Reach, FileBytes;
  }

  // ---- the calls, by path ----

  /** What opening the file or directory at a path does to all paths, its result, and the descriptor it gives. */
  ghost predicate PathOpened(g: Geometry, d: Disk, nodes: Nodes, fds: seq<Fd>, d': Disk, nodes': Nodes, fds': seq<Fd>,
                             path: Path, flags: Flags, r: int)
  {
    && path != []
    && (var was, now := FileAt(g, d, nodes, path), FileAt(g, d', nodes', path);
        var parent, full := DirAt(g, d, nodes, path[..|path| - 1]), FullAt(g, d, nodes, path[..|path| - 1]);
        var gone := Reach(g, d, nodes, path) == None;
        && OnePath(g, d, nodes, d', nodes', path, now) && SameDirs(g, d, nodes, d', nodes', path)
        && (DirAt(g, d', nodes', path) <==> DirAt(g, d, nodes, path))
        && (!gone ==> Reach(g, d', nodes', path) == Reach(g, d, nodes, path))
        && (r == ERR_NOENT <==> gone && !(flags.create && parent))
        && now == (if was.Some? then (if flags.trunc && flags.write && r >= 0 then Some([]) else was)
                   else if gone && flags.create && parent && !full then Some([])
                   else None)
        && (r == ERR_NOSPC <==> r != ERR_NOENT && r != ERR_ISDIR && ((gone && full) || NoFd(fds)))
        && (r == ERR_ISDIR <==> DirAt(g, d, nodes, path) && !flags.dir)
        && (r >= 0 || r == ERR_NOENT || r == ERR_NOSPC || r == ERR_ISDIR))
    && (r < 0 ==> fds' == fds)
    && (r >= 0 ==>
          var o := Reach(g, d', nodes', path);
          o.Some? && o.value in nodes' && Fresh(fds, fds', r, flags, nodes'[o.value].dir, o.value))
  }

  /** What a link to a directory names: its first cluster, and 0 for a root outside the clusters. */
  function DirClus(g: Geometry, x: Owner, n: Node): nat { if FlatRoot(g, x) then 0 else Head(n.ch) }

  /** Follows the components of a path to a directory. */
  method Walk(v: Volume, path: Path) returns (ok: bool, dirClus: nat, ghost x: Owner)
    requires v.Valid() && Clean(path)
    modifies v.secbuf
    ensures v.Valid() && (ok <==> DirAt(v.g, v.disk, v.nodes, path))
    ensures ok ==> Reach(v.g, v.disk, v.nodes, path) == Some(x) && x in v.nodes && v.nodes[x].dir
    ensures ok ==> Designates(v.g, x, v.nodes[x], dirClus) && dirClus == DirClus(v.g, x, v.nodes[x])
  {
    hide Inv, Usable, DirNames, DirSecs, SlotOf, Ent, EntOf, Named, FirstClus, Designates, Head, Fits, Writing,
         DirClus;
    RootDesignated(v.g, v.disk, v.fdt[..], v.nodes);
    ok, dirClus, x := true, if v.g.fat32 then v.g.rootClus else 0, Root;
    for i := 0 to |path|
      invariant v.Valid() && Reach(v.g, v.disk, v.nodes, path[..i]) == Some(x) && x in v.nodes && v.nodes[x].dir
      invariant Designates(v.g, x, v.nodes[x], dirClus) && dirClus == DirClus(v.g, x, v.nodes[x])
    {
      assert path[..i + 1] == path[..i] + [path[i]];
      OnTop(v.g, v.disk, v.nodes, x, path[i], path[..i]);
      var found, ent, sec, off := v.FindInDir(dirClus, path[i], x);
      if !found {
        BeyondNothing(v.g, v.disk, v.fdt[..], v.nodes, path, i + 1);
        return false, 0, Root;
      }
      ghost var o := At(sec, off);
      FoundNode(v.g, v.disk, v.fdt[..], v.nodes, x, path[i], o, ent);
      if !IsDirAttr(ent) {
        BeyondNothing(v.g, v.disk, v.fdt[..], v.nodes, path, i + 1);
        return false, 0, Root;
      }
      FoundDesignated(v.g, v.disk, v.fdt[..], v.nodes, o, ent);
      x, dirClus := o, FirstClus(v.g, ent);
    }
    assert path[..|path|] == path;
  }

  /** What the second lookup finds, by path: it only takes place when there is a file at `path`. */
  ghost function Second(g: Geometry, d: Disk, nodes: Nodes, path: Path, leaf: Option<seq<byte>>): Again
    requires path != []
  {
    if FileAt(g, d, nodes, path) == None || leaf == Some(path[|path| - 1]) then Wanted
    else if leaf.None? || Reach(g, d, nodes, path[..|path| - 1] + [leaf.value]) == None then Nothing
    else if DirAt(g, d, nodes, path[..|path| - 1] + [leaf.value]) then OtherDir
    else OtherFile
  }

  /** What opening does, by what the second lookup finds. */
  ghost predicate LeafOpened(g: Geometry, d: Disk, nodes: Nodes, fds: seq<Fd>, d': Disk, nodes': Nodes, fds': seq<Fd>,
                             path: Path, leaf: Option<seq<byte>>, flags: Flags, r: int)
    requires path != []
  {
    match Second(g, d, nodes, path, leaf)
    case Wanted => PathOpened(g, d, nodes, fds, d', nodes', fds', path, flags, r)
    case OtherFile =>
      leaf.Some? && PathOpened(g, d, nodes, fds, d', nodes', fds', path[..|path| - 1] + [leaf.value], flags, r)
    case OtherDir => d' == d && nodes' == nodes && DirOpened(fds, fds', flags, r)
    case Nothing =>
      var o := Reach(g, d, nodes, path);
      o.Some? && nodes' == nodes && LostOutcome(g, d, nodes, fds, d', fds', o.value, flags, r)
  }

  /** Opens the file or directory at a path; `leaf` is what a file that is there is looked up by again. */
  method OpenPath(v: Volume, path: Path, leaf: Option<seq<byte>>, flags: Flags) returns (r: int)
    requires v.Valid() && Clean(path) && path != [] && (leaf.Some? ==> Usable(leaf.value))
    requires forall o :: Reach(v.g, v.disk, v.nodes, path) == Some(o) ==> Sharable(v.fdt[..], o, flags.write)
    requires leaf.Some? ==>
      forall o :: Reach(v.g, v.disk, v.nodes, path[..|path| - 1] + [leaf.value]) == Some(o) ==>
        Sharable(v.fdt[..], o, flags.write)
    modifies v`disk, v`nextFree, v`nodes, v.secbuf, v.fdt
    ensures LeafOpened(v.g, old(v.disk), old(v.nodes), old(v.fdt[..]), v.disk, v.nodes, v.fdt[..], path, leaf, flags, r)
    ensures v.Valid() <==> !(Second(v.g, old(v.disk), old(v.nodes), path, leaf) == Nothing && r >= 0)
    ensures FileAt(v.g, old(v.disk), old(v.nodes), path).Some? && r >= 0 ==>
      && 0 <= r - FD_BASE < v.fdt.Length
      && (OpenOn(v.fdt[r - FD_BASE], Reach(v.g, old(v.disk), old(v.nodes), path).value) <==>
         leaf == Some(path[|path| - 1]))
  {
    hide Inv, Usable, DirNames, Named, Designates, Look, Reach, Opened, FileAt, DirAt, OnePath, SameDirs, FullAt,
         DirFull, NoFd, EntryOpened, PathOpened, LostOutcome, DirOpened, OpenOn, LeafOutcome, LeafOpened, Second, Found;
    ghost var d0, nodes0, fds0 := v.disk, v.nodes, v.fdt[..];
    var p0, want := path[..|path| - 1], path[|path| - 1];
    assert path == p0 + [want];
    var ok, dirClus, x := Walk(v, p0);
    if !ok {
      NoEntry(v.g, d0, fds0, nodes0, path, leaf, flags);
      return ERR_NOENT;
    }
    OnTop(v.g, d0, nodes0, x, want, p0);
    NamedIsLook(v.g, d0, fds0, nodes0, x, want, flags.write);
    if leaf.Some? {
      OnTop(v.g, d0, nodes0, x, leaf.value, p0);
      NamedIsLook(v.g, d0, fds0, nodes0, x, leaf.value, flags.write);
    }
    SecondFound(v.g, d0, fds0, nodes0, x, p0, want, leaf);
    r := v.FatOpen(dirClus, want, leaf, flags, x);
    OutcomeView(v.g, d0, fds0, nodes0, v.disk, v.fdt[..], v.nodes, x, want, leaf, p0, r, flags);
    if FileAt(v.g, d0, nodes0, path).Some? && r >= 0 {
      OpensIt(v.g, d0, fds0, nodes0, v.disk, v.fdt[..], v.nodes, path, leaf, r, flags);
    }
  }

  lemma NoEntry(g: Geometry, d: Disk, fds: seq<Fd>, nodes: Nodes, path: Path, leaf: Option<seq<byte>>, flags: Flags)
    requires path != [] && Clean(path) && !DirAt(g, d, nodes, path[..|path| - 1])
    ensures FileAt(g, d, nodes, path) == None
    ensures LeafOpened(g, d, nodes, fds, d, nodes, fds, path, leaf, flags, ERR_NOENT)
  {
    hide Reach, OnePath, SameDirs, NoFd, FullAt, LostOutcome, DirOpened, Fresh, Usable;
    NoParent(g, d, nodes, path);
    Unchanged(g, d, nodes, path);
    NothingSeen(g, d, nodes, path);
    hide DirAt, FileAt;
  }

  /** Looking a file up in its directory finds what looking up the path with another last component finds. */
  lemma SecondFound(g: Geometry, d: Disk, fds: seq<Fd>, nodes: Nodes, x: Owner, p0: Path, want: seq<byte>,
                    leaf: Option<seq<byte>>)
    requires Inv(g, d, fds, nodes) && x in nodes && nodes[x].dir && Reach(g, d, nodes, p0) == Some(x)
    requires Usable(want) && (leaf.Some? ==> Usable(leaf.value))
    ensures Second(g, d, nodes, p0 + [want], leaf) == Found(g, d, nodes, x, want, leaf)
    ensures Found(g, d, nodes, x, want, leaf) != Wanted ==>
      Reach(g, d, nodes, p0 + [want]) == Some(Named(g, d, x, nodes[x], want))
  {
    hide Inv, DirNames, Named, Look, Reach, Usable, FileBytes;
    KindAt(g, d, fds, nodes, x, p0, want);
    if leaf.Some? {
      KindAt(g, d, fds, nodes, x, p0, leaf.value);
    }
    hide FileAt, DirAt;
  }

  lemma KindAt(g: Geometry, d: Disk, fds: seq<Fd>, nodes: Nodes, x: Owner, p0: Path, w: seq<byte>)
    requires Inv(g, d, fds, nodes) && x in nodes && nodes[x].dir && Reach(g, d, nodes, p0) == Some(x) && Usable(w)
    ensures var o, p := Named(g, d, x, nodes[x], w), p0 + [w];
      && p[..|p| - 1] == p0 && p[|p| - 1] == w
      && Reach(g, d, nodes, p) == (if w in DirNames(g, d, x, nodes[x]) then Some(o) else None)
      && (FileAt(g, d, nodes, p) == None <==> w !in DirNames(g, d, x, nodes[x]) || (o in nodes && nodes[o].dir))
      && (DirAt(g, d, nodes, p) <==> w in DirNames(g, d, x, nodes[x]) && o in nodes && nodes[o].dir)
  {
    hide Inv, DirNames, Named, Look, Usable, FileBytes;
    var p := p0 + [w];
    assert p[..|p| - 1] == p0 && p[|p| - 1] == w;
    ReachOne(g, d, nodes, p0, w);
    hide Reach;
    NameLooked(g, d, fds, nodes, x, w);
  }

  lemma NameLooked(g: Geometry, d: Disk, fds: seq<Fd>, nodes: Nodes, x: Owner, w: seq<byte>)
    requires Inv(g, d, fds, nodes) && x in nodes && nodes[x].dir && Usable(w)
    ensures Look(g, d, nodes, x, w) == if w in DirNames(g, d, x, nodes[x]) then Some(Named(g, d, x, nodes[x], w))
      else None
    ensures Look(g, d, nodes, x, w).Some? ==> Look(g, d, nodes, x, w).value in nodes
  {
    hide Inv, DirSecs, DirNames;
    if Look(g, d, nodes, x, w).Some? {
      LookKnown(g, d, fds, nodes, x, w);
    }
  }

  /** What opening an entry did, path by path. */
  lemma EntryView(g: Geometry, d: Disk, fds: seq<Fd>, nodes: Nodes, d': Disk, fds': seq<Fd>, nodes': Nodes, x: Owner,
                  want: seq<byte>, p0: Path, r: int, flags: Flags)
    requires Inv(g, d, fds, nodes) && Clean(p0) && Usable(want)
    requires Reach(g, d, nodes, p0) == Some(x) && x in nodes && nodes[x].dir
    requires EntryOpened(g, d, nodes, fds, d', nodes', fds', x, want, flags, r)
    ensures PathOpened(g, d, nodes, fds, d', nodes', fds', p0 + [want], flags, r)
  {
    hide Inv, Usable, DirNames, Named, FilesKept, DirsKept, FileBytes, NameAdded, DirLonger, NameReached, Look, Reach,
         Fresh, FileAt, DirAt, OnePath, SameDirs, FullAt, DirFull, NoFd;
    var path, o := p0 + [want], Named(g, d', x, nodes'[x], want);
    assert path[..|path| - 1] == p0;
    RoomAt(g, d, nodes, p0, x);
    DirReached(g, d', nodes', path);
    DirReached(g, d, nodes, path);
    DirThere(g, d, nodes, p0, x);
    Involved(g, d, nodes, d', nodes', x, want, flags.trunc && flags.write && r >= 0);
    OpenedView(g, d, fds, nodes, d', fds', nodes', x, want, o, p0, path, r, flags);
    NameLooked(g, d, fds, nodes, x, want);
    ReachOne(g, d, nodes, p0, want);
  }

  lemma OutcomeView(g: Geometry, d: Disk, fds: seq<Fd>, nodes: Nodes, d': Disk, fds': seq<Fd>, nodes': Nodes, x: Owner,
                    want: seq<byte>, leaf: Option<seq<byte>>, p0: Path, r: int, flags: Flags)
    requires Inv(g, d, fds, nodes) && Clean(p0) && Usable(want) && (leaf.Some? ==> Usable(leaf.value))
    requires Reach(g, d, nodes, p0) == Some(x) && x in nodes && nodes[x].dir
    requires LeafOutcome(g, d, nodes, fds, d', nodes', fds', x, want, leaf, flags, r)
    ensures LeafOpened(g, d, nodes, fds, d', nodes', fds', p0 + [want], leaf, flags, r)
  {
    hide Inv, Usable, Named, Reach, Found, Second, PathOpened, EntryOpened, LostOutcome, DirOpened;
    assert (p0 + [want])[..|p0 + [want]| - 1] == p0;
    SecondFound(g, d, fds, nodes, x, p0, want, leaf);
    match Found(g, d, nodes, x, want, leaf) {
      case Wanted => EntryView(g, d, fds, nodes, d', fds', nodes', x, want, p0, r, flags);
      case OtherFile => EntryView(g, d, fds, nodes, d', fds', nodes', x, leaf.value, p0, r, flags);
      case _ =>
    }
  }

  /** The descriptor is on the file at the path exactly if the file was found again by its own name. */
  lemma OpensIt(g: Geometry, d: Disk, fds: seq<Fd>, nodes: Nodes, d': Disk, fds': seq<Fd>, nodes': Nodes, path: Path,
                leaf: Option<seq<byte>>, r: int, flags: Flags)
    requires Inv(g, d, fds, nodes) && path != [] && Clean(path) && (leaf.Some? ==> Usable(leaf.value))
    requires LeafOpened(g, d, nodes, fds, d', nodes', fds', path, leaf, flags, r)
    requires FileAt(g, d, nodes, path).Some? && r >= 0
    ensures 0 <= r - FD_BASE < |fds'|
    ensures OpenOn(fds'[r - FD_BASE], Reach(g, d, nodes, path).value) <==> leaf == Some(path[|path| - 1])
  {
    hide Inv, Usable, Reach, OnePath, SameDirs, NoFd, FullAt, Released;
    var q := path[..|path| - 1] + [if leaf.Some? then leaf.value else path[|path| - 1]];
    assert q[|q| - 1] == if leaf.Some? then leaf.value else path[|path| - 1];
    ReachKnown(g, d, fds, nodes, path);
    NoEntryAtZero(g, d, fds, nodes, Reach(g, d, nodes, path).value);
    if leaf.Some? && Reach(g, d, nodes, q) == Reach(g, d, nodes, path) {
      PathsUnique(g, d, fds, nodes, path, q);
    }
    if Reach(g, d, nodes, q).Some? {
      ReachKnown(g, d, fds, nodes, q);
    }
  }

  /** Deletes the file, or the empty directory, at a path. */
  method UnlinkPath(v: Volume, path: Path) returns (r: int)
    requires v.Valid() && Clean(path) && path != []
    requires forall o :: Reach(v.g, v.disk, v.nodes, path) == Some(o) ==> Told(v.g, v.disk, v.fdt[..], v.nodes, o)
    modifies v`disk, v`nodes, v.secbuf
    ensures v.Ready()
    ensures
      var o := Reach(v.g, old(v.disk), old(v.nodes), path);
      var ok := r != 0 || o.None? || !Opened(v.fdt[..], o.value);
      (v.Valid() <==> ok) && (Sound(v.g, v.disk, v.fdt[..]) <==> ok)
    ensures r == 0 || r == ERR_NOENT || r == ERR_INVAL
    ensures r == ERR_NOENT <==> Reach(v.g, old(v.disk), old(v.nodes), path) == None
    ensures
      r == 0 ==>
        && Reach(v.g, v.disk, v.nodes, path) == None
        && OnePath(v.g, old(v.disk), old(v.nodes), v.disk, v.nodes, path, None)
        && SameDirs(v.g, old(v.disk), old(v.nodes), v.disk, v.nodes, path)
        && (var o := Reach(v.g, old(v.disk), old(v.nodes), path).value;
          o in old(v.nodes) && Table(v.g, v.disk) == Cleared(Table(v.g, old(v.disk)), old(v.nodes)[o].ch))
    ensures r != 0 ==> v.disk == old(v.disk) && v.nodes == old(v.nodes)
  {
    hide Inv, Usable, DirNames, Named, Designates, FilesKept, DirsKept, FileBytes, Look, Reach, HoldsNothing, DirSecs,
         Table, Cleared, Opened, FileAt, DirAt, OnePath, SameDirs, IsVolume, OwnEnt;
    ghost var d0, nodes0, fds0 := v.disk, v.nodes, v.fdt[..];
    var p0, want := path[..|path| - 1], path[|path| - 1];
    assert path == p0 + [want];
    var ok, dirClus, x := Walk(v, p0);
    if !ok {
      NoParent(v.g, d0, nodes0, path);
      return ERR_NOENT;
    }
    OnTop(v.g, d0, nodes0, x, want, p0);
    NameLooked(v.g, d0, fds0, nodes0, x, want);
    NoneTold(v.g, d0, fds0, nodes0, x, want);
    r := v.FatUnlink(dirClus, want, x);
    if r == 0 {
      ghost var o := Named(v.g, d0, x, nodes0[x], want);
      RemovedView(v.g, d0, fds0, nodes0, v.disk, v.nodes, x, want, o, p0, path);
    }
  }

  /** Makes an empty directory at a path. */
  method MkdirPath(v: Volume, path: Path) returns (r: int)
    requires v.Valid() && Clean(path) && path != []
    modifies v`disk, v`nextFree, v`nodes, v.secbuf
    ensures v.Valid()
    ensures r == 0 || r == ERR_EXIST || r == ERR_NOENT || r == ERR_NOSPC
    ensures r == ERR_EXIST <==> Reach(v.g, old(v.disk), old(v.nodes), path).Some?
    ensures r == ERR_NOENT <==> !DirAt(v.g, old(v.disk), old(v.nodes), path[..|path| - 1])
    ensures r == ERR_NOSPC <==>
      r != ERR_NOENT && r != ERR_EXIST && NoRoomAt(v.g, old(v.disk), old(v.nodes), path[..|path| - 1])
    ensures OnePath(v.g, old(v.disk), old(v.nodes), v.disk, v.nodes, path, FileAt(v.g, old(v.disk), old(v.nodes), path))
    ensures SameDirs(v.g, old(v.disk), old(v.nodes), v.disk, v.nodes, path)
    ensures DirAt(v.g, v.disk, v.nodes, path) <==> r == 0 || DirAt(v.g, old(v.disk), old(v.nodes), path)
    ensures r == 0 ==>
      var o, x := Reach(v.g, v.disk, v.nodes, path), Reach(v.g, old(v.disk), old(v.nodes), path[..|path| - 1]);
      && o.Some? && o.value in v.nodes && x.Some? && x.value in old(v.nodes)
      && HasLinks(v.g, v.disk, Head(v.nodes[o.value].ch), DirClus(v.g, x.value, old(v.nodes)[x.value]))
  {
    hide Inv, Usable, DirNames, Named, Designates, FilesKept, DirsKept, FileBytes, Look, Reach, HoldsNothing, DirSecs,
         NameAdded, DirLonger, FileAt, DirAt, OnePath, SameDirs, HasLinks, NoRoomAt, NoRoomForDir, FullAt, DirFull;
    ghost var d0, nodes0, fds0 := v.disk, v.nodes, v.fdt[..];
    var p0, want := path[..|path| - 1], path[|path| - 1];
    assert path == p0 + [want];
    Unchanged(v.g, d0, nodes0, path);
    var ok, dirClus, x := Walk(v, p0);
    if !ok {
      NoParent(v.g, d0, nodes0, path);
      return ERR_NOENT;
    }
    OnTop(v.g, d0, nodes0, x, want, p0);
    LookIn(v.g, d0, nodes0, x, want);
    RoomAt(v.g, d0, nodes0, p0, x);
    NothingSeen(v.g, d0, nodes0, path);
    r := v.FatMkdir(dirClus, want, x);
    ghost var o := Named(v.g, v.disk, x, v.nodes[x], want);
    if r == 0 {
      Involved(v.g, d0, nodes0, v.disk, v.nodes, x, want, false);
      KeptWeaken(v.g, d0, nodes0, v.disk, v.nodes, {}, {x}, {o}, {x});
      AddedView(v.g, d0, fds0, nodes0, v.disk, v.nodes, x, want, p0, o, path);
      DirThere(v.g, v.disk, v.nodes, path, o);
    } else if r == ERR_NOSPC {
      LongerView(v.g, d0, fds0, nodes0, v.disk, v.nodes, x);
      assert Clean(path);
      AllAsBefore(v.g, d0, nodes0, v.disk, v.nodes, path);
      DirsAsBefore(v.g, d0, nodes0, v.disk, v.nodes, path);
    }
  }

  lemma DirThere(g: Geometry, d: Disk, nodes: Nodes, path: Path, o: Owner)
    requires Reach(g, d, nodes, path) == Some(o) && o in nodes && nodes[o].dir
    ensures DirAt(g, d, nodes, path)
  {
  }

  lemma DirsAsBefore(g: Geometry, d: Disk, nodes: Nodes, d': Disk, nodes': Nodes, path: Path)
    requires forall p :: Clean(p) ==> (DirAt(g, d', nodes', p) <==> DirAt(g, d, nodes, p))
    ensures SameDirs(g, d, nodes, d', nodes', path)
  {
    hide DirAt;
  }

  /** Writing to an open file changes what is read at its path, there as a write to flat bytes, and at no other path. */
  lemma WriteView(g: Geometry, d: Disk, fds: seq<Fd>, nodes: Nodes, d': Disk, fds': seq<Fd>, nodes': Nodes, i: nat,
                  o: Owner, pos: nat, data: seq<byte>, path: Path)
    requires Inv(g, d, fds, nodes) && i < |fds| && OpenOn(fds[i], o) && o in nodes && Clean(path)
    requires Written(g, d, fds, nodes, d', fds', nodes', i, o, pos, data) && Reach(g, d, nodes, path) == Some(o)
    ensures var s := FileAt(g, d, nodes, path);
      s.Some? && pos <= |s.value| && OnePath(g, d, nodes, d', nodes', path, Some(Overwrite(s.value, pos, data)))
    ensures SameDirs(g, d, nodes, d', nodes', path) && Reach(g, d', nodes', path) == Some(o)
  {
    hide Inv, Reach, FileAt, DirAt, FileBytes, FilesKept, DirsKept, Usable, Overwrite;
    OpenIsFile(g, d, fds, nodes, i, o);
    FileView(g, d, fds, nodes, d', nodes', o);
    FileThere(g, d, nodes, path, o);
    forall p | Clean(p) && p != path ensures FileAt(g, d', nodes', p) == FileAt(g, d, nodes, p) {
      if Reach(g, d, nodes, p) == Some(o) {
        PathsUnique(g, d, fds, nodes, p, path);
      }
    }
  }

  lemma OpenIsFile(g: Geometry, d: Disk, fds: seq<Fd>, nodes: Nodes, i: nat, o: Owner)
    requires Inv(g, d, fds, nodes) && i < |fds| && OpenOn(fds[i], o)
    ensures o in nodes && !nodes[o].dir
  {
    hide EntriesOk, Complete, DirsOk, ChainsOk, Mirrored, Table, InRange, Shape;
  }

  /** The root is named by its first cluster, or by 0. */
  lemma RootDesignated(g: Geometry, d: Disk, fds: seq<Fd>, nodes: Nodes)
    requires Inv(g, d, fds, nodes)
    ensures Root in nodes && nodes[Root].dir && Designates(g, Root, nodes[Root], if g.fat32 then g.rootClus else 0)
    ensures DirClus(g, Root, nodes[Root]) == if g.fat32 then g.rootClus else 0
  {
    hide EntriesOk, Complete, DirsOk, FdsOk, ChainsOk, Mirrored, Table, InRange, InDir;
  }

  /** A directory is named by the first cluster in its entry. */
  lemma FoundDesignated(g: Geometry, d: Disk, fds: seq<Fd>, nodes: Nodes, o: Owner, ent: seq<byte>)
    requires Inv(g, d, fds, nodes) && o in nodes && o.At? && nodes[o].dir && |ent| == 32
    requires !Writing(fds, o) ==> FirstClus(g, ent) == Head(nodes[o].ch)
    ensures Designates(g, o, nodes[o], FirstClus(g, ent)) && FirstClus(g, ent) == DirClus(g, o, nodes[o])
  {
    hide EntriesOk, Complete, DirsOk, ChainsOk, Mirrored, Table, InRange, InDir;
    assert !Writing(fds, o);
  }

  /** Behind a file, or where there is nothing, there is nothing. */
  lemma {:induction false} BeyondNothing(g: Geometry, d: Disk, fds: seq<Fd>, nodes: Nodes, path: Path, i: nat)
    requires Inv(g, d, fds, nodes) && Clean(path) && i <= |path| && !DirAt(g, d, nodes, path[..i])
    ensures !DirAt(g, d, nodes, path)
    decreases |path| - i
  {
    hide Inv, Usable;
    if i == |path| {
      assert path[..i] == path;
    } else {
      assert path[..i + 1][..i] == path[..i] && path[..i + 1][i] == path[i];
      BeyondNothing(g, d, fds, nodes, path, i + 1);
    }
  }

  lemma Unchanged(g: Geometry, d: Disk, nodes: Nodes, path: Path)
    ensures OnePath(g, d, nodes, d, nodes, path, FileAt(g, d, nodes, path)) && SameDirs(g, d, nodes, d, nodes, path)
  {
    hide FileAt, DirAt;
  }

  lemma NoParent(g: Geometry, d: Disk, nodes: Nodes, path: Path)
    requires path != [] && !DirAt(g, d, nodes, path[..|path| - 1])
    ensures Reach(g, d, nodes, path) == None && FileAt(g, d, nodes, path) == None && !DirAt(g, d, nodes, path)
  {
  }

  /** A name that is there stands for what looking it up gives; one that is not there for nothing that can be open. */
  lemma NamedIsLook(g: Geometry, d: Disk, fds: seq<Fd>, nodes: Nodes, x: Owner, want: seq<byte>, write: bool)
    requires Inv(g, d, fds, nodes) && x in nodes && nodes[x].dir && Usable(want)
    requires forall o :: Look(g, d, nodes, x, want) == Some(o) ==> Sharable(fds, o, write)
    ensures Sharable(fds, Named(g, d, x, nodes[x], want), write)
    ensures Look(g, d, nodes, x, want) == if want in DirNames(g, d, x, nodes[x])
      then Some(Named(g, d, x, nodes[x], want)) else None
    ensures Look(g, d, nodes, x, want).Some? ==> Look(g, d, nodes, x, want).value in nodes
  {
    hide Inv, DirSecs, DirNames;
    NameLooked(g, d, fds, nodes, x, want);
  }

  lemma NoneTold(g: Geometry, d: Disk, fds: seq<Fd>, nodes: Nodes, x: Owner, want: seq<byte>)
    requires x in nodes
    ensures want !in DirNames(g, d, x, nodes[x]) ==> Told(g, d, fds, nodes, Named(g, d, x, nodes[x], want))
  {
  }

  /** A file that was reached by name, and perhaps emptied. */
  lemma ReachedView(g: Geometry, d: Disk, fds: seq<Fd>, nodes: Nodes, d': Disk, nodes': Nodes, x: Owner,
                    want: seq<byte>, o: Owner, p0: Path, path: Path, emptied: bool)
    requires Inv(g, d, fds, nodes) && Clean(p0) && Usable(want) && path == p0 + [want]
    requires Reach(g, d, nodes, p0) == Some(x) && x in nodes && nodes[x].dir && x in nodes' && o in nodes && o in nodes'
    requires o == Named(g, d', x, nodes'[x], want) && want in DirNames(g, d, x, nodes[x])
    requires FilesKept(g, d, nodes, d', nodes', {o}) && DirsKept(g, d, nodes, d', nodes', {x})
    requires NameReached(g, d, nodes, d', nodes', x, o, emptied)
    ensures Reach(g, d, nodes, path) == Some(o) && Reach(g, d', nodes', path) == Some(o)
    ensures OnePath(g, d, nodes, d', nodes', path, FileAt(g, d', nodes', path))
    ensures forall p :: Clean(p) ==> (DirAt(g, d', nodes', p) <==> DirAt(g, d, nodes, p))
    ensures FileAt(g, d', nodes', path) == if FileAt(g, d, nodes, path).Some? && emptied then Some([])
      else FileAt(g, d, nodes, path)
  {
    hide Inv, Look, Usable, FilesKept, FileBytes, DirsKept, NameReached, Reach, DirNames, Named, FileAt, DirAt;
    ReachedSame(g, d, nodes, d', nodes', x, want, o, emptied);
    OnTop(g, d, nodes, x, want, p0);
    assert Clean(path);
    if nodes[o].dir {
      DirNoFile(g, d, nodes, path, o);
    } else {
      FileView(g, d, fds, nodes, d', nodes', o);
      forall p | Clean(p) && p != path ensures FileAt(g, d', nodes', p) == FileAt(g, d, nodes, p) {
        if Reach(g, d, nodes, p) == Some(o) {
          PathsUnique(g, d, fds, nodes, p, path);
        }
      }
      FileThere(g, d, nodes, path, o);
    }
  }

  lemma DirNoFile(g: Geometry, d: Disk, nodes: Nodes, path: Path, o: Owner)
    requires Reach(g, d, nodes, path) == Some(o) && o in nodes && nodes[o].dir
    ensures FileAt(g, d, nodes, path) == None
  {
  }

  lemma FileThere(g: Geometry, d: Disk, nodes: Nodes, path: Path, o: Owner)
    requires Reach(g, d, nodes, path) == Some(o) && o in nodes && !nodes[o].dir
    ensures FileAt(g, d, nodes, path) == Some(FileBytes(g, d, nodes[o])) && !DirAt(g, d, nodes, path)
  {
  }

  lemma ReachedSame(g: Geometry, d: Disk, nodes: Nodes, d': Disk, nodes': Nodes, x: Owner, want: seq<byte>, o: Owner,
                    emptied: bool)
    requires NameReached(g, d, nodes, d', nodes', x, o, emptied) && nodes[x].dir
    requires o == Named(g, d', x, nodes'[x], want)
    requires want in DirNames(g, d, x, nodes[x]) && DirsKept(g, d, nodes, d', nodes', {x})
    ensures Look(g, d, nodes, x, want) == Some(o) && DirsKept(g, d, nodes, d', nodes', {})
    ensures nodes' == nodes[o := nodes'[o]]
    ensures nodes'[o].dir == nodes[o].dir && (nodes[o].dir ==> d' == d && nodes' == nodes)
    ensures !nodes[o].dir ==> FileBytes(g, d', nodes'[o]) == if emptied then [] else FileBytes(g, d, nodes[o])
  {
    hide DirSecs, Names, FileBytes;
    assert nodes'[x] == nodes[x];
  }

  /** What opening did, path by path. */
  lemma OpenedView(g: Geometry, d: Disk, fds: seq<Fd>, nodes: Nodes, d': Disk, fds': seq<Fd>, nodes': Nodes, x: Owner,
                   want: seq<byte>, o: Owner, p0: Path, path: Path, r: int, flags: Flags)
    requires Inv(g, d, fds, nodes) && Clean(p0) && Usable(want) && path == p0 + [want]
    requires Reach(g, d, nodes, p0) == Some(x) && x in nodes && nodes[x].dir && x in nodes'
    requires o == Named(g, d', x, nodes'[x], want)
    requires FilesKept(g, d, nodes, d', nodes', {o}) && DirsKept(g, d, nodes, d', nodes', {x})
    requires
      var m0 := DirNames(g, d, x, nodes[x]);
      && (if want in m0
          then o in nodes && o in nodes'
            && NameReached(g, d, nodes, d', nodes', x, o, flags.trunc && flags.write && r >= 0)
          else if r == ERR_NOENT then d' == d && nodes' == nodes
          else if want in DirNames(g, d', x, nodes'[x]) then
            NameAdded(g, d, nodes, d', nodes', x, want) && o in nodes' && !nodes'[o].dir
              && FileBytes(g, d', nodes'[o]) == []
          else r == ERR_NOSPC && DirLonger(g, d, nodes, d', nodes', x))
    ensures OnePath(g, d, nodes, d', nodes', path, FileAt(g, d', nodes', path))
    ensures SameDirs(g, d, nodes, d', nodes', path)
    ensures DirAt(g, d', nodes', path) <==> DirAt(g, d, nodes, path)
    ensures Reach(g, d, nodes, path) == None <==> want !in DirNames(g, d, x, nodes[x])
    ensures want in DirNames(g, d, x, nodes[x]) ==> Reach(g, d, nodes, path) == Some(o)
    ensures
      var was, now := FileAt(g, d, nodes, path), FileAt(g, d', nodes', path);
      now == if was.Some? then (if flags.trunc && flags.write && r >= 0 then Some([]) else was)
             else if Reach(g, d, nodes, path) == None && r != ERR_NOENT && want in DirNames(g, d', x, nodes'[x])
               then Some([]) else None
    ensures want in DirNames(g, d, x, nodes[x]) || (r != ERR_NOENT && want in DirNames(g, d', x, nodes'[x])) ==>
      Reach(g, d', nodes', path) == Some(o)
  {
    hide Inv, Look, Usable, FilesKept, FileBytes, DirsKept, NameReached, Reach, DirNames, Named, FileAt, DirAt, OnePath,
         NameAdded, DirLonger;
    OnTop(g, d, nodes, x, want, p0);
    LookIn(g, d, nodes, x, want);
    NothingSeen(g, d, nodes, path);
    if want in DirNames(g, d, x, nodes[x]) {
      ReachedView(g, d, fds, nodes, d', nodes', x, want, o, p0, path, flags.trunc && flags.write && r >= 0);
    } else if r == ERR_NOENT {
      Unchanged(g, d, nodes, path);
    } else if want in DirNames(g, d', x, nodes'[x]) {
      AddedView(g, d, fds, nodes, d', nodes', x, want, p0, o, path);
      FileThere(g, d', nodes', path, o);
    } else {
      NotOnRoot(g, d, fds, nodes, d', nodes', x, want, o);
      LongerView(g, d, fds, nodes, d', nodes', x);
      assert Clean(path);
      AllAsBefore(g, d, nodes, d', nodes', path);
    }
  }

  lemma Involved(g: Geometry, d: Disk, nodes: Nodes, d': Disk, nodes': Nodes, x: Owner, want: seq<byte>, emptied: bool)
    requires x in nodes'
    ensures var o := Named(g, d', x, nodes'[x], want);
      && (NameReached(g, d, nodes, d', nodes', x, o, emptied) ==> o in nodes && o in nodes')
      && (NameAdded(g, d, nodes, d', nodes', x, want) ==> o !in nodes && o in nodes')
  {
    hide Named, DirNames, FileBytes;
  }

  lemma DirReached(g: Geometry, d: Disk, nodes: Nodes, path: Path)
    ensures DirAt(g, d, nodes, path) <==>
      var o := Reach(g, d, nodes, path); o.Some? && o.value in nodes && nodes[o.value].dir
  {
    hide Reach;
  }

  lemma AllAsBefore(g: Geometry, d: Disk, nodes: Nodes, d': Disk, nodes': Nodes, path: Path)
    requires forall p :: Clean(p) ==> FileAt(g, d', nodes', p) == FileAt(g, d, nodes, p)
    ensures OnePath(g, d, nodes, d', nodes', path, FileAt(g, d', nodes', path))
  {
    hide FileAt;
  }

  lemma LookIn(g: Geometry, d: Disk, nodes: Nodes, x: Owner, want: seq<byte>)
    requires x in nodes && nodes[x].dir
    ensures Look(g, d, nodes, x, want) == None <==> want !in DirNames(g, d, x, nodes[x])
  {
  }

  lemma NothingSeen(g: Geometry, d: Disk, nodes: Nodes, path: Path)
    ensures Reach(g, d, nodes, path) == None ==> FileAt(g, d, nodes, path) == None && !DirAt(g, d, nodes, path)
  {
    hide Reach;
  }

  lemma NotOnRoot(g: Geometry, d: Disk, fds: seq<Fd>, nodes: Nodes, d': Disk, nodes': Nodes, x: Owner, want: seq<byte>,
                  o: Owner)
    requires Inv(g, d, fds, nodes) && x in nodes' && want !in DirNames(g, d', x, nodes'[x])
    requires o == Named(g, d', x, nodes'[x], want)
    requires FilesKept(g, d, nodes, d', nodes', {o})
    ensures FilesKept(g, d, nodes, d', nodes', {})
  {
    RootDesignated(g, d, fds, nodes);
    hide Inv, FileBytes, DirSecs, Names;
  }
}
