/** A freshly formatted volume, where the invariant starts. */
module FatFormat {
  import opened Bytes
  import opened FatTable
  import opened FatChain
  import opened FatFile
  import opened FatDir
  import opened FatState

  /** The chain of an empty root directory. */
  function RootChain(g: Geometry): seq<nat> { if g.fat32 then [g.rootClus] else [] }

  /**
   * Every cluster is free, save the root's one on FAT32; the root directory is blank. What entries 0 and 1 hold, as a
   * rule the media byte and an end mark, does not matter.
   */
  ghost predicate Formatted(g: Geometry, d: Disk) {
    && Fits(g, d) && Mirrored(g, d) && (g.fat32 ==> g.IsEoc(Table(g, d)[g.rootClus]) && !g.IsEoc(g.rootClus))
    && (forall c :: 2 <= c < g.Last() && !(g.fat32 && c == g.rootClus) ==> Table(g, d)[c] == 0)
    && (forall i :: 0 <= i < |DirSecs(g, Root, RootChain(g))| && DirSecs(g, Root, RootChain(g))[i] < |d| ==>
          d[DirSecs(g, Root, RootChain(g))[i]] == seq(SEC, _ => 0))
  }

  ghost predicate NoneOpen(fds: seq<Fd>) { forall i :: 0 <= i < |fds| ==> !fds[i].used }

  /** On a formatted volume with nothing open the invariant holds, with the root as the only owner. */
  lemma FormattedStarts(g: Geometry, d: Disk, fds: seq<Fd>)
    requires Formatted(g, d) && NoneOpen(fds)
    ensures Inv(g, d, fds, map[Root := Node(true, RootChain(g), 0)])
    ensures DirNames(g, d, Root, Node(true, RootChain(g), 0)) == map[]
  {
    hide Mirrored, InRange, Table, DirSecs, DirOk, Complete, InNode, EntOf, Ent;
    var nodes := map[Root := Node(true, RootChain(g), 0)];
    RootInRange(g, d);
    BlankDir(g, d);
    BlankComplete(g, d, nodes);
  }

  lemma RootInRange(g: Geometry, d: Disk)
    requires Formatted(g, d)
    ensures InRange(g, Table(g, d)) && ChainOk(g, Table(g, d), RootChain(g)) && InVolume(g, RootChain(g))
    ensures Distinct(RootChain(g))
  {
    hide Mirrored, DirSecs;
  }

  lemma BlankDir(g: Geometry, d: Disk)
    requires Formatted(g, d)
    ensures DirOk(d, DirSecs(g, Root, RootChain(g))) && Names(d, DirSecs(g, Root, RootChain(g))) == map[]
  {
    hide Mirrored, DirSecs, InNode, Table;
    RootInRange(g, d);
    DirSecsPlaces(g, Root, Node(true, RootChain(g), 0));
    var secs := DirSecs(g, Root, RootChain(g));
    forall k | 0 <= k < |secs| * PER_SEC ensures !Live(Ent(d, secs, k)) {
      assert d[secs[k / PER_SEC]] == seq(SEC, _ => 0);
    }
  }

  lemma BlankComplete(g: Geometry, d: Disk, nodes: Nodes)
    requires Formatted(g, d) && nodes == map[Root := Node(true, RootChain(g), 0)]
    ensures Complete(g, d, nodes)
  {
    hide Mirrored, DirSecs, Table, Plain, InNode;
    RootInRange(g, d);
    forall s, off | 0 <= s < g.tot && 0 <= off < SEC && off % 32 == 0 && InDir(g, nodes, s)
      ensures !Live(EntOf(d, s, off))
    {
      var i := DirSecsAll(g, Root, nodes[Root], s);
      assert EntOf(d, s, off)[0] == d[s][off];
    }
  }
}
