/** The FAT driver: a sector buffer, a descriptor table and an allocation hint over a disk of sectors. */
module FatDriver {
  import opened Wrappers
  import opened Bytes
  import opened FatTable
  import opened FatChain
  import opened FatFile
  import opened FatDir
  import opened FatState
  import opened FatSteps
  import opened FatDirSteps

  /** The effect of one table write on the table as a whole. */
  lemma SetEverywhere(g: Geometry, d: Disk, d': Disk, cl: nat, v: nat)
    requires Fits(g, d) && Fits(g, d') && cl < g.Last()
    requires forall copy :: 0 <= copy < g.fats ==> RawAt(g, d', copy, cl) == Splice(g, RawAt(g, d, copy, cl), v)
    requires forall copy, c :: 0 <= copy < g.fats && 0 <= c < g.Ents() && c != cl ==>
      RawAt(g, d', copy, c) == RawAt(g, d, copy, c)
    ensures Table(g, d') == Table(g, d)[cl := v % g.Mask()]
    ensures Mirrored(g, d) ==> Mirrored(g, d')
  {
    hide RawAt, Splice, Geometry.Mask, Geometry.Ents;
    forall copy, c | 0 <= copy < g.fats && 0 <= c < g.Last()
      ensures EntryAt(g, d', copy, c) == if c == cl then v % g.Mask() else EntryAt(g, d, copy, c)
    {
      SpliceLow(g, RawAt(g, d, copy, cl), v);
      EnoughEntries(g);
    }
    FitsValid(g, d);
    hide EntryAt, Fits;
  }

  lemma EnoughEntries(g: Geometry)
    requires g.Valid()
    ensures g.Last() <= g.Ents()
  {
  }

  lemma SpliceLow(g: Geometry, raw: nat, v: nat)
    ensures Splice(g, raw, v) % g.Mask() == v % g.Mask()
  {
    DivModUnique(Splice(g, raw, v), g.Mask(), raw / g.Mask(), v % g.Mask());
  }

  lemma TableSize(g: Geometry, d: Disk)
    requires Fits(g, d)
    ensures |Table(g, d)| == g.Last()
  {
  }

  // ---- entry bytes ----

  /** An entry with its first cluster and size fields set. */
  function WithFields(g: Geometry, e: seq<byte>, start: nat, size: nat): (r: seq<byte>)
    requires |e| == 32 && start < 0x1_0000_0000 && size < 0x1_0000_0000
    ensures |r| == 32
  {
    var e1 := Patch(e, 26, Put16(start % 0x1_0000));
    var e2 := if g.fat32 then Patch(e1, 20, Put16(start / 0x1_0000)) else e1;
    Patch(e2, 28, Put32(size))
  }

  lemma FieldsRead(g: Geometry, e: seq<byte>, start: nat, size: nat)
    requires |e| == 32 && start < (if g.fat32 then 0x1_0000_0000 else 0x1_0000) && size < 0x1_0000_0000
    ensures var r := WithFields(g, e, start, size);
      FirstClus(g, r) == start && FileSize(r) == size && r[..12] == e[..12]
  {
    var r := WithFields(g, e, start, size);
    var lo, hi, sz := Put16(start % 0x1_0000), Put16(start / 0x1_0000), Put32(size);
    assert r[26] == lo[0] && r[27] == lo[1];
    assert g.fat32 ==> r[20] == hi[0] && r[21] == hi[1];
    assert r[28] == sz[0] && r[29] == sz[1] && r[30] == sz[2] && r[31] == sz[3];
    assert Le16(r, 26) == Le16(lo, 0) && Le32(r, 28) == Le32(sz, 0);
    assert g.fat32 ==> Le16(r, 20) == Le16(hi, 0);
  }

  /** Poking bytes inside a 32-byte entry of a sector. */
  lemma PokeEntry(s: Sector, off: nat, o: nat, p: seq<byte>)
    requires off + 32 <= SEC && o + |p| <= 32
    ensures Patch(s, off + o, p) == Patch(s, off, Patch(s[off..off + 32], o, p))
    ensures Patch(s, off + o, p)[off..off + 32] == Patch(s[off..off + 32], o, p)
  {
  }

  /** The driver's three stores into the sector rewrite the entry's fields. */
  lemma PokedFields(g: Geometry, s: Sector, off: nat, start: nat, size: nat)
    requires off + 32 <= SEC && start < 0x1_0000_0000 && size < 0x1_0000_0000
    ensures var s1 := Patch(s, off + 26, Put16(start % 0x1_0000));
      var s2 := if g.fat32 then Patch(s1, off + 20, Put16(start / 0x1_0000)) else s1;
      Patch(s2, off + 28, Put32(size)) == Patch(s, off, WithFields(g, s[off..off + 32], start, size))
  {
    hide Put16, Put32, Patch;
    var lo, hi, sz := Put16(start % 0x1_0000), Put16(start / 0x1_0000), Put32(size);
    if g.fat32 {
      PokedOn(s, s[off..off + 32], off, 26, lo, 20, hi);
      PokedOn(s, Patch(s[off..off + 32], 26, lo), off, 20, hi, 28, sz);
      PokeEntry(s, off, 26, lo);
    } else {
      PokeEntry(s, off, 26, lo);
      PokedOn(s, s[off..off + 32], off, 26, lo, 28, sz);
    }
  }

  /** A second store into an entry that already holds `e` with `p` at `o`. */
  lemma PokedOn(s: Sector, e: seq<byte>, off: nat, o: nat, p: seq<byte>, o': nat, p': seq<byte>)
    requires off + 32 <= SEC && |e| == 32 && o + |p| <= 32 && o' + |p'| <= 32
    ensures Patch(Patch(s, off, Patch(e, o, p)), off + o', p') == Patch(s, off, Patch(Patch(e, o, p), o', p'))
  {
    hide Patch;
    var e1 := Patch(e, o, p);
    PatchTwice(s, off, e1, Patch(e1, o', p'));
    PokeEntry(Patch(s, off, e1), off, o', p');
  }

  lemma PatchTwice(s: Sector, off: nat, e1: seq<byte>, e2: seq<byte>)
    requires off + 32 <= SEC && |e1| == 32 && |e2| == 32
    ensures Patch(Patch(s, off, e1), off, e2) == Patch(s, off, e2)
    ensures Patch(s, off, e1)[off..off + 32] == e1
  {
  }

  // ---- positions ----

  /** Where in its cluster a position lies. */
  lemma ReadCluster(g: Geometry, pos: nat)
    requires g.spc > 0
    ensures var off := InClus(g, pos);
      off / SEC < g.spc && pos == ClusStart(g, ClusIdx(g, pos)) + off / SEC * SEC + off % SEC
    ensures InClus(g, pos) % SEC == pos % SEC
  {
    ClusterPosition(pos, g.spc);
  }

  lemma NextStart(g: Geometry, q: nat)
    ensures ClusStart(g, q + 1) == ClusStart(g, q) + g.spc * SEC
  {
    assert (q + 1) * (g.spc * SEC) == q * (g.spc * SEC) + g.spc * SEC;
  }

  /** Moving on inside one sector reaches at most the next cluster's first byte. */
  lemma NextPosition(g: Geometry, pos: nat, want: nat)
    requires g.spc > 0 && 0 < want <= SEC - pos % SEC
    ensures pos + want <= ClusStart(g, ClusIdx(g, pos) + 1)
    ensures ClusIdx(g, pos + want) == if InClus(g, pos + want) == 0 then ClusIdx(g, pos) + 1 else ClusIdx(g, pos)
  {
    var cb, q, off := g.spc * SEC, ClusIdx(g, pos), InClus(g, pos);
    ReadCluster(g, pos);
    NextStart(g, q);
    assert pos + want == ClusStart(g, q) + (off + want) && off + want <= cb by { SectorRoom(off, want, g.spc); }
    if off + want < cb {
      DivModUnique(pos + want, cb, q, off + want);
    } else {
      DivModUnique(pos + want, cb, q + 1, 0);
    }
  }

  lemma SectorRoom(off: nat, want: nat, spc: nat)
    requires off < spc * SEC && want <= SEC - off % SEC
    ensures off + want <= spc * SEC
  {
  }

  /** An existing cluster lies within the chain's capacity. */
  lemma ClusterWithin(g: Geometry, ch: seq<nat>, q: nat)
    requires q < |ch|
    ensures ClusStart(g, q + 1) <= Capacity(g, ch)
  {
    MulMono(q + 1, |ch|, g.spc * SEC);
  }

  /** A position before the capacity lies in an existing cluster. */
  lemma PositionWithin(g: Geometry, ch: seq<nat>, pos: nat)
    requires g.spc > 0 && pos <= Capacity(g, ch)
    ensures ClusIdx(g, pos) <= |ch|
    ensures pos < Capacity(g, ch) ==> ClusIdx(g, pos) < |ch|
  {
    var cb := g.spc * SEC;
    assert pos == pos / cb * cb + pos % cb;
    assert (|ch| + 1) * cb == |ch| * cb + cb;
    if pos / cb > |ch| {
      MulMono(|ch| + 1, pos / cb, cb);
    } else if pos / cb == |ch| {
      assert pos >= |ch| * cb;
    }
  }

  /** The least of three counts. */
  function Least(a: nat, b: nat, c: nat): (m: nat)
    ensures m <= a && m <= b && m <= c && (m == a || m == b || m == c)
  {
    var ab := if a > b then b else a;
    if ab > c then c else ab
  }

  lemma SliceAppend<T>(s: seq<T>, a: nat, b: nat, c: nat)
    requires a <= b <= c <= |s|
    ensures s[a..b] + s[b..c] == s[a..c]
  {
  }

  lemma OverwriteMore<T>(s: seq<T>, p: nat, a: seq<T>, b: seq<T>)
    requires p <= |s|
    ensures p + |a| <= |Overwrite(s, p, a)|
    ensures Overwrite(Overwrite(s, p, a), p + |a|, b) == Overwrite(s, p, a + b)
  {
  }

  lemma KeptOn(g: Geometry, d: Disk, n: Nodes, d1: Disk, n1: Nodes, d2: Disk, n2: Nodes, exf: set<Owner>,
               exd: set<Owner>)
    requires FilesKept(g, d, n, d1, n1, exf) && DirsKept(g, d, n, d1, n1, exd)
    requires FilesKept(g, d1, n1, d2, n2, exf) && DirsKept(g, d1, n1, d2, n2, exd)
    ensures FilesKept(g, d, n, d2, n2, exf) && DirsKept(g, d, n, d2, n2, exd)
  {
    hide FileBytes, DirNames;
  }

  lemma KeptSelf(g: Geometry, d: Disk, n: Nodes, exf: set<Owner>, exd: set<Owner>)
    ensures FilesKept(g, d, n, d, n, exf) && DirsKept(g, d, n, d, n, exd)
  {
  }

  lemma KeptWeaken(g: Geometry, d: Disk, n: Nodes, d1: Disk, n1: Nodes, exf: set<Owner>, exd: set<Owner>,
                   exf': set<Owner>, exd': set<Owner>)
    requires FilesKept(g, d, n, d1, n1, exf) && DirsKept(g, d, n, d1, n1, exd) && exf <= exf' && exd <= exd'
    ensures FilesKept(g, d, n, d1, n1, exf') && DirsKept(g, d, n, d1, n1, exd')
  {
  }

  /** A descriptor's position moves within its file. */
  lemma PosStep(g: Geometry, d: Disk, fds: seq<Fd>, nodes: Nodes, i: nat, f: Fd)
    requires Inv(g, d, fds, nodes) && i < |fds| && fds[i].used && !fds[i].isDir
    requires f == fds[i].(pos := f.pos) && f.pos <= f.size
    ensures Inv(g, d, fds[i := f], nodes)
  {
    hide ChainsOk, InRange, Mirrored, Fits, Shape, Complete, DirsOk;
    SameOpen(fds, i, f);
    MovedFds(fds, nodes, i, f);
    hide Writing, Tied, FdsOk;
  }

  lemma MovedFds(fds: seq<Fd>, nodes: Nodes, i: nat, f: Fd)
    requires FdsOk(fds, nodes) && i < |fds| && f == fds[i].(pos := f.pos) && f.pos <= f.size
    ensures FdsOk(fds[i := f], nodes)
  {
  }

  // ---- result codes ----

  const FD_BASE := 100
  const ERR_NOENT := -1
  const ERR_EXIST := -2
  const ERR_NOSPC := -3
  const ERR_INVAL := -4
  const ERR_BADFD := -5
  const ERR_ISDIR := -6

  /** No cluster is left. */
  ghost predicate Full(g: Geometry, d: Disk) { forall c :: 2 <= c < g.Last() ==> Table(g, d)[c] != 0 }

  lemma LastInVolume(g: Geometry, d: Disk, ch: seq<nat>)
    requires Fits(g, d) && ChainOk(g, Table(g, d), ch)
    ensures ch != [] ==> 2 <= ch[|ch| - 1] < g.Last()
    ensures g.Last() > 0
  {
  }

  lemma ClusterNumberFits(g: Geometry, d: Disk, c: nat)
    requires Fits(g, d) && c < g.Last()
    ensures c % g.Mask() == c
  {
  }

  lemma DataKeepsTable(g: Geometry, d: Disk, d': Disk, xs: seq<nat>)
    requires Fits(g, d) && OnlyData(g, d, d', xs)
    ensures Table(g, d') == Table(g, d) && (Mirrored(g, d) ==> Mirrored(g, d'))
  {
    TableFrame(g, d, d');
  }

  lemma ClaimedBy(g: Geometry, d: Disk, d1: Disk, d2: Disk, d3: Disk, ch: seq<nat>, c: nat)
    requires Fits(g, d) && Fits(g, d1) && Fits(g, d2) && Fits(g, d3) && ChainOk(g, Table(g, d), ch) && 2 <= c < g.Last()
    requires Table(g, d)[c] == 0
    requires OnlyFat(g, d, d1) && Table(g, d1) == Table(g, d)[c := g.EocMark()]
    requires (d2 == d1 || OnlyFat(g, d1, d2)) && Mirrored(g, d2)
    requires Table(g, d2) == if ch == [] then Table(g, d1) else Table(g, d1)[ch[|ch| - 1] := c]
    requires OnlyData(g, d2, d3, [c])
    ensures Claimed(g, d, d3, ch, c)
  {
    TableFrame(g, d2, d3);
    hide Table, Mirrored;
  }

  const CLOSED: Fd := Fd(false, Flags(false, false, false, false, false, false), false, 0, 0, 0, 0, 0)

  class Volume {
    const g: Geometry
    const secbuf: array<byte>
    const fdt: array<Fd>
    var disk: Disk
    var nextFree: nat
    ghost var nodes: Nodes

    ghost predicate Ready()
      reads this
    {
      secbuf.Length == SEC && Fits(g, disk)
    }

    ghost predicate Valid()
      reads this, fdt
    {
      Ready() && Inv(g, disk, fdt[..], nodes)
    }

    /** Mounts a volume; nothing is open. */
    constructor (geo: Geometry, image: Disk, slots: nat, ghost owners: Nodes)
      requires Inv(geo, image, seq(slots, _ => CLOSED), owners)
      ensures Valid() && g == geo && disk == image && nodes == owners && fdt[..] == seq(slots, _ => CLOSED)
      ensures fresh(secbuf) && fresh(fdt)
    {
      hide Inv;
      InvFits(geo, image, seq(slots, _ => CLOSED), owners);
      g, disk, nodes, nextFree := geo, image, owners, 2;
      secbuf, fdt := new byte[SEC](_ => 0), new Fd[slots](_ => CLOSED);
      new;
      assert fdt[..] == seq(slots, _ => CLOSED);
    }

    // ---- sectors ----

    method ReadSec(lba: nat)
      requires secbuf.Length == SEC && lba < |disk|
      modifies secbuf
      ensures secbuf[..] == disk[lba]
    {
      forall i | 0 <= i < SEC {
        secbuf[i] := disk[lba][i];
      }
    }

    method WriteSec(lba: nat)
      requires secbuf.Length == SEC && lba < |disk|
      modifies this`disk
      ensures disk == old(disk)[lba := secbuf[..]]
    {
      disk := disk[lba := secbuf[..]];
    }

    /** Copies bytes into the sector buffer. */
    method Poke(o: nat, p: seq<byte>)
      requires secbuf.Length == SEC && o + |p| <= SEC
      modifies secbuf
      ensures secbuf[..] == Patch(old(secbuf[..]), o, p)
    {
      forall i | 0 <= i < |p| {
        secbuf[o + i] := p[i];
      }
    }

    // ---- the table ----

    method FatGet(cl: nat) returns (v: nat)
      requires Ready() && cl < g.Last()
      modifies secbuf
      ensures v == Table(g, disk)[cl]
    {
      EntryPlace(g, 0, cl);
      var off := cl * g.EntSize();
      ReadSec(g.fatStart + off / SEC);
      if g.fat32 {
        v := Le32(secbuf[..], off % SEC) % 0x1000_0000;
      } else {
        v := Le16(secbuf[..], off % SEC);
      }
    }

    /** Every copy gets the new value; FAT32's reserved bits, all other entries and all other sectors stay. */
    method FatSet(cl: nat, val: nat)
      requires Ready() && cl < g.Last()
      modifies this`disk, secbuf
      ensures Ready() && OnlyFat(g, old(disk), disk)
      ensures forall copy :: 0 <= copy < g.fats ==>
        RawAt(g, disk, copy, cl) == Splice(g, RawAt(g, old(disk), copy, cl), val)
      ensures forall copy, c :: 0 <= copy < g.fats && 0 <= c < g.Ents() && c != cl ==>
        RawAt(g, disk, copy, c) == RawAt(g, old(disk), copy, c)
      ensures Table(g, disk) == Table(g, old(disk))[cl := val % g.Mask()]
      ensures Mirrored(g, old(disk)) ==> Mirrored(g, disk)
    {
      var off := cl * g.EntSize();
      for i := 0 to g.fats
        invariant Ready() && OnlyFat(g, old(disk), disk)
        invariant forall copy :: 0 <= copy < g.fats ==>
          RawAt(g, disk, copy, cl) == if copy < i then Splice(g, RawAt(g, old(disk), copy, cl), val)
            else RawAt(g, old(disk), copy, cl)
        invariant forall copy, c :: 0 <= copy < g.fats && 0 <= c < g.Ents() && c != cl ==>
          RawAt(g, disk, copy, c) == RawAt(g, old(disk), copy, c)
      {
        ghost var before := disk;
        SetOneEffect(g, before, i, cl, val);
        EntryPlace(g, i, cl);
        var lba := g.fatStart + i * g.fatsz + off / SEC;
        ReadSec(lba);
        var raw := if g.fat32 then Le32(secbuf[..], off % SEC) else Le16(secbuf[..], off % SEC);
        Poke(off % SEC, EncodeEntry(g, raw, val));
        WriteSec(lba);
        assert disk == SetOne(g, before, i, cl, val);
      }
      SetEverywhere(g, old(disk), disk, cl, val);
    }

    /** Claims the first free cluster at or after the hint, then from the start; 0 means there is none. */
    method AllocCluster() returns (r: nat)
      requires Ready() && Mirrored(g, disk)
      modifies this`disk, this`nextFree, secbuf
      ensures Ready() && Mirrored(g, disk)
      ensures r == 0 ==> disk == old(disk) && nextFree == old(nextFree)
      ensures r == 0 ==> forall c :: 2 <= c < g.Last() ==> Table(g, disk)[c] != 0
      ensures r != 0 ==> 2 <= r < g.Last() && Table(g, old(disk))[r] == 0 && nextFree == r + 1
      ensures r != 0 ==> OnlyFat(g, old(disk), disk) && Table(g, disk) == Table(g, old(disk))[r := g.EocMark()]
      ensures r != 0 ==>
        var start := if old(nextFree) < 2 || old(nextFree) >= g.Last() then 2 else old(nextFree);
        forall c :: (if r >= start then start <= c < r else start <= c < g.Last() || 2 <= c < r) ==>
          Table(g, old(disk))[c] != 0
    {
      hide Table, Mirrored, OnlyFat, Fits, Geometry.Last;
      var last := g.Last();
      var start := nextFree;
      if start < 2 || start >= last {
        start := 2;
      }
      var c := start;
      while c < last
        invariant 2 <= start <= c && disk == old(disk) && nextFree == old(nextFree)
        invariant c <= last || c == start
        invariant forall k :: start <= k < c && k < last ==> Table(g, disk)[k] != 0
      {
        var v := FatGet(c);
        if v == 0 {
          FatSet(c, g.EocMark());
          nextFree := c + 1;
          return c;
        }
        c := c + 1;
      }
      c := 2;
      while c < start
        invariant 2 <= c <= start && disk == old(disk) && nextFree == old(nextFree)
        invariant forall k :: start <= k < last ==> Table(g, disk)[k] != 0
        invariant forall k :: 2 <= k < c && k < last ==> Table(g, disk)[k] != 0
      {
        var v := FatGet(c);
        if v == 0 {
          FatSet(c, g.EocMark());
          nextFree := c + 1;
          return c;
        }
        c := c + 1;
      }
      return 0;
    }

    method ZeroCluster(cl: nat)
      requires Ready() && 2 <= cl < g.Last()
      modifies this`disk, secbuf
      ensures Ready() && OnlyData(g, old(disk), disk, [cl]) && Zeroed(g, disk, cl)
    {
      forall i | 0 <= i < SEC {
        secbuf[i] := 0;
      }
      for s := 0 to g.spc
        invariant Ready() && secbuf[..] == seq(SEC, _ => 0)
        invariant OnlyData(g, old(disk), disk, [cl])
        invariant forall l :: g.ClusLba(cl) <= l < g.ClusLba(cl) + s && l < |disk| ==> disk[l] == seq(SEC, _ => 0)
      {
        ClusterSectors(g, cl, s);
        WriteSec(g.ClusLba(cl) + s);
      }
    }

    /** Frees what can be reached from `cl`; ends on every table in range, a cyclic one included. */
    method FreeChain(first: nat)
      requires Ready() && Mirrored(g, disk) && InRange(g, Table(g, disk))
      requires Stops(g, first) || first < g.Last()
      modifies this`disk, secbuf
      ensures Ready() && Mirrored(g, disk) && OnlyFat(g, old(disk), disk)
      ensures Table(g, disk) == Freed(g, Table(g, old(disk)), first)
    {
      hide Table, Mirrored, Fits, Freed, Used, InRange, Geometry.Mask, Geometry.Last, RawAt, Splice;
      var cl: nat := first;
      while cl >= 2 && !g.IsEoc(cl)
        invariant Ready() && Mirrored(g, disk) && OnlyFat(g, old(disk), disk)
        invariant InRange(g, Table(g, disk)) && (Stops(g, cl) || cl < g.Last())
        invariant Freed(g, Table(g, disk), cl) == Freed(g, Table(g, old(disk)), first)
        decreases Used(Table(g, disk)), if Stops(g, cl) then 0 else 1
      {
        ghost var t := Table(g, disk);
        TableSize(g, disk);
        FreedStep(g, t, cl);
        var n := FatGet(cl);
        FatSet(cl, 0);
        assert Table(g, disk) == t[cl := 0] && 0 % g.Mask() == 0;
        cl := n;
      }
      FreedStopped(g, Table(g, disk), cl);
    }

    /** Claims a cluster, links it behind the last one (if there is one) and zeroes it; 0 means the disk is full. */
    method ClaimCluster(cl: nat, ghost ch: seq<nat>) returns (nc: nat)
      requires Ready() && Mirrored(g, disk) && ChainOk(g, Table(g, disk), ch)
      requires cl == if ch == [] then 0 else ch[|ch| - 1]
      modifies this`disk, this`nextFree, secbuf
      ensures Ready() && Mirrored(g, disk)
      ensures nc == 0 ==> disk == old(disk) && Full(g, disk)
      ensures nc != 0 ==> Claimed(g, old(disk), disk, ch, nc) && Zeroed(g, disk, nc)
    {
      hide Table, OnlyFat, OnlyData, Mirrored, Fits, Claimed, Zeroed, Chain, Geometry.Mask, Geometry.EocMark;
      LastInVolume(g, disk, ch);
      nc := AllocCluster();
      if nc == 0 {
        return;
      }
      assert nc % g.Mask() == nc by { ClusterNumberFits(g, disk, nc); }
      ghost var d1 := disk;
      if cl != 0 {
        FatSet(cl, nc);
      }
      ghost var d2 := disk;
      ZeroCluster(nc);
      assert Mirrored(g, disk) by { DataKeepsTable(g, d2, disk, [nc]); }
      ClaimedBy(g, old(disk), d1, d2, disk, ch, nc);
    }

    // ---- open files ----

    /** Writes an open file's start and size back to its entry. */
    method UpdateDirent(i: nat)
      requires i < fdt.Length && fdt[i].used && !fdt[i].isDir && (fdt[i].dirSec == 0 || Valid())
      modifies this`disk, secbuf
      ensures fdt[i].dirSec == 0 ==> disk == old(disk)
      ensures fdt[i].dirSec != 0 ==>
        var o := At(fdt[i].dirSec, fdt[i].dirOff);
        && Valid() && Table(g, disk) == Table(g, old(disk)) && o in nodes && Tied(g, disk, o, nodes[o])
        && FilesKept(g, old(disk), nodes, disk, nodes, {}) && DirsKept(g, old(disk), nodes, disk, nodes, {})
    {
      hide Inv, Table, FilesKept, DirsKept, Tied, FirstClus, FileSize, WithFields, Put16, Put32, Le16, Le32, Head;
      ghost var o := At(fdt[i].dirSec, fdt[i].dirOff);
      var f := fdt[i];
      if f.dirSec == 0 {
        return;
      }
      OpenFilePlace(g, disk, fdt[..], nodes, i, o);
      ghost var e0 := EntOf(disk, o.sec, o.off);
      ReadSec(f.dirSec);
      PokedFields(g, disk[f.dirSec], f.dirOff, f.start, f.size);
      Poke(f.dirOff + 26, Put16(f.start % 0x1_0000));
      if g.fat32 {
        Poke(f.dirOff + 20, Put16(f.start / 0x1_0000));
      }
      Poke(f.dirOff + 28, Put32(f.size));
      WriteSec(f.dirSec);
      ghost var e := WithFields(g, e0, f.start, f.size);
      assert disk == EntryWritten(old(disk), o.sec, o.off, e);
      FieldsRead(g, e0, f.start, f.size);
      DirentStep(g, old(disk), fdt[..], nodes, o, e, disk);
    }

    /** Reads the bytes at the descriptor's position, as many as wanted and as the file has. */
    method FatRead(fd: int, want: nat) returns (r: int, data: seq<byte>)
      requires Valid()
      modifies secbuf, fdt
      ensures Valid() && disk == old(disk) && nodes == old(nodes)
      ensures
        var i := fd - FD_BASE;
        if !(0 <= i < fdt.Length) || !old(fdt[..])[i].used then r == ERR_BADFD && data == [] && fdt[..] == old(fdt[..])
        else if old(fdt[..])[i].isDir then r == ERR_ISDIR && data == [] && fdt[..] == old(fdt[..])
        else
          var f := old(fdt[..])[i];
          var o := At(f.dirSec, f.dirOff);
          && o in nodes
          && var file := FileBytes(g, disk, nodes[o]);
          && f.pos <= |file|
          && data == file[f.pos..if f.pos + want <= |file| then f.pos + want else |file|]
          && r == |data| && fdt[..] == old(fdt[..])[i := f.(pos := f.pos + |data|)]
    {
      hide Inv, Table, Content, Capacity, Distinct, InVolume, Geometry.IsEoc, Fits;
      var i := fd - FD_BASE;
      if i < 0 || i >= fdt.Length || !fdt[i].used {
        return ERR_BADFD, [];
      }
      if fdt[i].isDir {
        return ERR_ISDIR, [];
      }
      ghost var o := At(fdt[i].dirSec, fdt[i].dirOff);
      OpenFileFacts(g, disk, fdt[..], nodes, i, o);
      if fdt[i].pos >= fdt[i].size {
        assert fdt[..] == old(fdt[..])[i := fdt[i].(pos := fdt[i].pos + 0)];
        return 0, [];
      }
      var n := want;
      if n > fdt[i].size - fdt[i].pos {
        n := fdt[i].size - fdt[i].pos;
      }
      data := ReadOpen(fdt[i].start, fdt[i].size, fdt[i].pos, n, nodes[o].ch);
      fdt[i] := fdt[i].(pos := fdt[i].pos + |data|);
      assert fdt[..] == old(fdt[..])[i := fdt[i]];
      PosStep(g, disk, old(fdt[..]), nodes, i, fdt[i]);
      r := |data|;
    }

    /** The read loop over the clusters of a file of `size` bytes, from position `p0`. */
    method ReadOpen(start: nat, size: nat, p0: nat, n: nat, ghost ch: seq<nat>) returns (data: seq<byte>)
      requires Ready() && ChainOk(g, Table(g, disk), ch) && start == Head(ch)
      requires p0 < size <= Capacity(g, ch) && n <= size - p0
      modifies secbuf
      ensures |data| == n && data == Content(g, disk, ch, size)[p0..p0 + n]
    {
      hide Fits, Table, Content, Capacity, Chain, Distinct, InVolume, Geometry.IsEoc, ClusIdx, ClusStart;
      FitsValid(g, disk);
      ChainInVolume(g, Table(g, disk), ch);
      PositionWithin(g, ch, p0);
      ghost var file := Content(g, disk, ch, size);
      data := [];
      var cl := SkipClusters(start, ClusIdx(g, p0), ch);
      ghost var q: nat := ClusIdx(g, p0);
      ChainNext(g, Table(g, disk), ch, q);
      assert p0 + |data| == p0 && data == file[p0..p0];
      while |data| < n && !g.IsEoc(cl) && cl >= 2
        invariant |data| <= n && data == file[p0..p0 + |data|]
        invariant Ready()
        invariant |data| < n ==> q < |ch| && cl == ch[q] && ClusIdx(g, p0 + |data|) == q && cl >= 2 && !g.IsEoc(cl)
        decreases n - |data|
      {
        var part := CopyFromCluster(cl, size, p0 + |data|, n - |data|, ch, q);
        SliceAppend(file, p0, p0 + |data|, p0 + |data| + |part|);
        data := data + part;
        if p0 + |data| >= size {
          return;
        }
        cl := Link(cl, ch, q);
        if |data| < n {
          NextCluster(g, ch, p0 + |data|, q);
          q := q + 1;
        }
      }
    }

    /** The table's link behind a chain's cluster. */
    method Link(cl: nat, ghost ch: seq<nat>, ghost q: nat) returns (ncl: nat)
      requires Ready() && Chain(g, Table(g, disk), ch) && q < |ch| && cl == ch[q]
      modifies secbuf
      ensures q + 1 < |ch| ==> ncl == ch[q + 1] && ncl >= 2 && !g.IsEoc(ncl)
      ensures q + 1 == |ch| ==> g.IsEoc(ncl)
    {
      hide Table, Fits, Chain;
      ChainNext(g, Table(g, disk), ch, q);
      ncl := FatGet(cl);
    }

    /** Follows the table over `skip` clusters of a chain. */
    method SkipClusters(first: nat, skip: nat, ghost ch: seq<nat>) returns (cl: nat)
      requires Ready() && Chain(g, Table(g, disk), ch) && first == ch[0] && skip < |ch|
      modifies secbuf
      ensures cl == ch[skip]
    {
      hide Table, Fits;
      cl := first;
      for k := 0 to skip
        invariant Ready() && cl == ch[k]
      {
        ChainNext(g, Table(g, disk), ch, k);
        cl := FatGet(cl);
      }
    }

    /** The sectors of one cluster, from position `p0` to the cluster's end or until enough is read. */
    method CopyFromCluster(cl: nat, size: nat, p0: nat, left: nat, ghost ch: seq<nat>, ghost q: nat)
      returns (part: seq<byte>)
      requires Ready() && InVolume(g, ch) && q < |ch| && cl == ch[q]
      requires ClusIdx(g, p0) == q && p0 <= size && 0 < left <= size - p0
      modifies secbuf
      ensures 0 < |part| <= left && part == Content(g, disk, ch, size)[p0..p0 + |part|]
      ensures |part| < left ==> p0 + |part| == ClusStart(g, q + 1)
    {
      hide Fits, Content, Geometry.ClusLba, SecLba, InVolume, ClusIdx, ClusStart, InClus, Least, Geometry.Valid;
      FitsValid(g, disk);
      FitsSize(g, disk);
      ghost var base := ClusStart(g, q);
      ReadCluster(g, p0);
      NextStart(g, q);
      part := [];
      ghost var file := Content(g, disk, ch, size);
      assert |file| == size;
      var offInClus := InClus(g, p0);
      var s0, off0 := offInClus / SEC, offInClus % SEC;
      var s := s0;
      while s < g.spc && |part| < left
        invariant s0 <= s <= g.spc && s0 < g.spc && (s > s0 ==> 0 < |part|)
        invariant |part| <= left && part == file[p0..p0 + |part|]
        invariant Ready()
        invariant |part| < left ==> p0 + |part| == base + s * SEC + if s == s0 then off0 else 0
      {
        var off := if s == s0 then off0 else 0;
        ReadSector(g, ch, p0 + |part|, q, s, off);
        ReadSec(g.ClusLba(cl) + s);
        var w := Least(SEC - off, left - |part|, size - (p0 + |part|));
        ReadPart(g, disk, ch, size, p0, part, w);
        part := part + secbuf[off..off + w];
        if p0 + |part| >= size {
          return;
        }
        s := s + 1;
      }
    }

    /** Gives an open file one more cluster, the first one included; 0 means the disk is full. */
    method GrowOpen(i: nat, cl: nat, ghost o: Owner) returns (nc: nat)
      requires Valid() && i < fdt.Length && OpenOn(fdt[i], o) && fdt[i].flags.write && o in nodes
      requires cl == if nodes[o].ch == [] then 0 else nodes[o].ch[|nodes[o].ch| - 1]
      modifies this`disk, this`nextFree, this`nodes, secbuf, fdt
      ensures Valid()
      ensures nc == 0 ==> disk == old(disk) && fdt[..] == old(fdt[..]) && nodes == old(nodes) && Full(g, disk)
      ensures nc != 0 ==> nodes == old(nodes)[o := old(nodes)[o].(ch := old(nodes)[o].ch + [nc])]
      ensures nc != 0 ==> fdt[..] == old(fdt[..])[i := old(fdt[i]).(start := (old(nodes)[o].ch + [nc])[0])]
      ensures FilesKept(g, old(disk), old(nodes), disk, nodes, {})
      ensures DirsKept(g, old(disk), old(nodes), disk, nodes, {})
      ensures nc != 0 ==> FileBytes(g, disk, nodes[o]) == FileBytes(g, old(disk), old(nodes)[o])
    {
      hide Inv, Fits, Mirrored, ChainOk, Table, Claimed, Zeroed, FilesKept, DirsKept, FileBytes, DirNames, Full,
           Capacity;
      WriterFacts(g, disk, fdt[..], nodes, i, o);
      ghost var n := nodes[o];
      nc := ClaimCluster(cl, n.ch);
      if nc == 0 {
        KeptSelf(g, disk, nodes, {}, {});
        return;
      }
      if cl == 0 {
        fdt[i] := fdt[i].(start := nc);
      }
      ghost var n' := n.(ch := n.ch + [nc]);
      assert fdt[..] == old(fdt[..])[i := old(fdt[i]).(start := n'.ch[0])];
      GrowFile(g, old(disk), disk, old(fdt[..]), nodes, i, nc, o, fdt[i], n');
      nodes := nodes[o := n'];
      KeptAt(g, old(disk), old(nodes), disk, nodes, o);
    }

    /** Follows an open file's chain to the cluster its position is in; a file that ends just there grows. */
    method SeekCluster(i: nat, ghost o: Owner) returns (cl: nat, ok: bool)
      requires Valid() && i < fdt.Length && OpenOn(fdt[i], o) && fdt[i].flags.write && o in nodes
      modifies this`disk, this`nextFree, this`nodes, secbuf, fdt
      ensures Valid() && o in nodes
      ensures Written(g, old(disk), old(fdt[..]), old(nodes), disk, fdt[..], nodes, i, o, old(fdt[i].pos), [])
      ensures !ok ==> Full(g, disk)
      ensures ok && nodes[o].ch == [] ==> old(nodes)[o].ch == []
      ensures ok && nodes[o].ch != [] ==>
        ClusIdx(g, fdt[i].pos) < |nodes[o].ch| && cl == nodes[o].ch[ClusIdx(g, fdt[i].pos)]
    {
      hide Inv, Fits, Mirrored, Table, FilesKept, DirsKept, FileBytes, DirNames, Full, Capacity, Chain, ClusIdx,
           Overwrite, Geometry.IsEoc, Geometry.Last, Distinct, InVolume;
      WriterFacts(g, disk, fdt[..], nodes, i, o);
      FitsValid(g, disk);
      PositionWithin(g, nodes[o].ch, fdt[i].pos);
      EmptyAtStart(g, nodes[o].ch, fdt[i].pos);
      WrittenNothing(g, disk, fdt[..], nodes, i, o);
      cl, ok := fdt[i].start, true;
      ghost var ch, idx := nodes[o].ch, ClusIdx(g, fdt[i].pos);
      ghost var k := 0;
      var skip := ClusIdx(g, fdt[i].pos);
      while skip > 0
        invariant skip >= 0 && k + skip == idx <= |ch| && (ch == [] ==> idx == 0)
        invariant (ch != [] ==> k < |ch| && cl == ch[k])
        invariant Valid() && nodes == old(nodes) && disk == old(disk) && fdt[..] == old(fdt[..])
      {
        skip := skip - 1;
        ChainNext(g, Table(g, disk), ch, k);
        var ncl := FatGet(cl);
        if g.IsEoc(ncl) || ncl < 2 {
          assert k + 1 == |ch| && skip == 0;
          ncl := GrowOpen(i, cl, o);
          if ncl == 0 {
            return cl, false;
          }
          WrittenGrown(g, old(disk), old(fdt[..]), old(nodes), old(disk), old(fdt[..]), old(nodes),
                       disk, fdt[..], nodes, i, o, old(fdt[i].pos), [], ncl);
          return ncl, true;
        }
        cl := ncl;
        k := k + 1;
      }
    }

    /** The write loop: sector by sector, growing the file at each cluster boundary, until done or the disk is full. */
    method WriteOpen(i: nat, first: nat, buf: seq<byte>, ghost o: Owner) returns (put: nat)
      requires Valid() && i < fdt.Length && OpenOn(fdt[i], o) && fdt[i].flags.write && o in nodes
      requires NoWrap(g, fdt[i].pos + |buf|)
      requires |buf| > 0 ==>
        nodes[o].ch != [] && ClusIdx(g, fdt[i].pos) < |nodes[o].ch| && first == nodes[o].ch[ClusIdx(g, fdt[i].pos)]
      modifies this`disk, this`nextFree, this`nodes, secbuf, fdt
      ensures Valid() && o in nodes && put <= |buf| && (|buf| > 0 ==> put > 0)
      ensures Written(g, old(disk), old(fdt[..]), old(nodes), disk, fdt[..], nodes, i, o, old(fdt[i].pos), buf[..put])
      ensures put < |buf| ==> Full(g, disk)
    {
      hide Inv, Fits, Table, FilesKept, DirsKept, FileBytes, DirNames, Full, ClusIdx, Overwrite, InClus, ClusStart,
           Written, Max;
      WrittenNothing(g, disk, fdt[..], nodes, i, o);
      HasSectors(g, disk, fdt[..], nodes);
      put := 0;
      var cl := first;
      ghost var p0 := fdt[i].pos;
      assert buf[..0] == [];
      while put < |buf|
        invariant Valid() && o in nodes && put <= |buf| && OpenOn(fdt[i], o) && fdt[i].flags.write
        invariant fdt[i].pos == p0 + put
        invariant Written(g, old(disk), old(fdt[..]), old(nodes), disk, fdt[..], nodes, i, o, p0, buf[..put])
        invariant put < |buf| ==> ClusIdx(g, p0 + put) < |nodes[o].ch| && cl == nodes[o].ch[ClusIdx(g, p0 + put)]
      {
        var w, ncl, full := WriteRound(i, cl, buf, put, o, old(disk), old(fdt[..]), old(nodes), p0);
        put := put + w;
        if put >= |buf| || full {
          break;
        }
        cl := ncl;
      }
    }

    /** One round of the write loop: a sector, and at a cluster's end the step to the next cluster. */
    method WriteRound(i: nat, cl: nat, buf: seq<byte>, put: nat, ghost o: Owner, ghost d0: Disk, ghost fds0: seq<Fd>,
                      ghost nodes0: Nodes, ghost p0: nat)
      returns (w: nat, ncl: nat, full: bool)
      requires Valid() && i < fdt.Length && OpenOn(fdt[i], o) && fdt[i].flags.write && o in nodes
      requires put < |buf| && fdt[i].pos == p0 + put && NoWrap(g, p0 + |buf|) && i < |fds0| && o in nodes0
      requires Written(g, d0, fds0, nodes0, disk, fdt[..], nodes, i, o, p0, buf[..put])
      requires ClusIdx(g, fdt[i].pos) < |nodes[o].ch| && cl == nodes[o].ch[ClusIdx(g, fdt[i].pos)]
      modifies this`disk, this`nextFree, this`nodes, secbuf, fdt
      ensures Valid() && o in nodes && 0 < w <= |buf| - put
      ensures OpenOn(fdt[i], o) && fdt[i].flags.write && fdt[i].pos == p0 + put + w
      ensures Written(g, d0, fds0, nodes0, disk, fdt[..], nodes, i, o, p0, buf[..put + w])
      ensures full ==> Full(g, disk)
      ensures !full && put + w < |buf| ==>
        ClusIdx(g, p0 + put + w) < |nodes[o].ch| && ncl == nodes[o].ch[ClusIdx(g, p0 + put + w)]
    {
      hide Inv, Fits, Table, FilesKept, DirsKept, FileBytes, DirNames, Full, ClusIdx, Overwrite, InClus, ClusStart,
           Written, Max;
      HasSectors(g, disk, fdt[..], nodes);
      ghost var pos, q := fdt[i].pos, ClusIdx(g, fdt[i].pos);
      ncl, full := cl, false;
      w := WriteStep(i, cl, buf, put, o, d0, fds0, nodes0, p0);
      if put + w >= |buf| {
        return;
      }
      NextPosition(g, pos, w);
      if InClus(g, fdt[i].pos) == 0 {
        ghost var d2, fds2, nodes2 := disk, fdt[..], nodes;
        ncl := AdvanceCluster(i, cl, o, q);
        WrittenThen(g, d0, fds0, nodes0, d2, fds2, nodes2, disk, fdt[..], nodes, i, o, p0, buf[..put + w], []);
        WrittenFd(g, d2, fds2, nodes2, disk, fdt[..], nodes, i, o, p0 + put + w, []);
        assert buf[..put + w] + [] == buf[..put + w];
        full := ncl == 0;
      }
    }

    /** One sector of the write loop, accounted for. */
    method WriteStep(i: nat, cl: nat, buf: seq<byte>, put: nat, ghost o: Owner,
                     ghost d0: Disk, ghost fds0: seq<Fd>, ghost nodes0: Nodes, ghost p0: nat) returns (w: nat)
      requires Valid() && i < fdt.Length && OpenOn(fdt[i], o) && fdt[i].flags.write && o in nodes
      requires put < |buf| && fdt[i].pos == p0 + put && NoWrap(g, p0 + |buf|) && i < |fds0| && o in nodes0
      requires Written(g, d0, fds0, nodes0, disk, fdt[..], nodes, i, o, p0, buf[..put])
      requires ClusIdx(g, fdt[i].pos) < |nodes[o].ch| && cl == nodes[o].ch[ClusIdx(g, fdt[i].pos)]
      modifies this`disk, this`nodes, secbuf, fdt
      ensures Valid() && o in nodes && 0 < w <= |buf| - put && w <= SEC - old(fdt[i].pos) % SEC
      ensures nodes[o].ch == old(nodes)[o].ch && OpenOn(fdt[i], o) && fdt[i].flags.write && fdt[i].pos == p0 + put + w
      ensures Written(g, d0, fds0, nodes0, disk, fdt[..], nodes, i, o, p0, buf[..put + w])
    {
      hide Inv, Fits, Table, FilesKept, DirsKept, FileBytes, DirNames, ClusIdx, Overwrite, Written, Max;
      w := WriteSector(i, cl, buf[put..], o);
      assert buf[put..][..w] == buf[put..put + w];
      assert buf[..put] + buf[put..put + w] == buf[..put + w];
      WrittenMore(g, d0, fds0, nodes0, old(disk), old(fdt[..]), old(nodes), disk, fdt[..], nodes, i, o, p0, buf[..put],
                  buf[put..put + w]);
    }

    /** The cluster behind `cl`, claimed if the chain ends there; 0 means the disk is full. */
    method AdvanceCluster(i: nat, cl: nat, ghost o: Owner, ghost q: nat) returns (ncl: nat)
      requires Valid() && i < fdt.Length && OpenOn(fdt[i], o) && fdt[i].flags.write && o in nodes
      requires q < |nodes[o].ch| && cl == nodes[o].ch[q]
      modifies this`disk, this`nextFree, this`nodes, secbuf, fdt
      ensures Valid() && o in nodes
      ensures Written(g, old(disk), old(fdt[..]), old(nodes), disk, fdt[..], nodes, i, o, old(fdt[i].pos), [])
      ensures ncl == 0 ==> Full(g, disk)
      ensures ncl != 0 ==> q + 1 < |nodes[o].ch| && ncl == nodes[o].ch[q + 1]
    {
      hide Inv, Fits, Mirrored, Table, FilesKept, DirsKept, FileBytes, DirNames, Full, Capacity, Chain, Overwrite,
           Geometry.IsEoc, Geometry.Last;
      WriterFacts(g, disk, fdt[..], nodes, i, o);
      WrittenNothing(g, disk, fdt[..], nodes, i, o);
      ChainNext(g, Table(g, disk), nodes[o].ch, q);
      ncl := FatGet(cl);
      if g.IsEoc(ncl) || ncl < 2 {
        ncl := GrowOpen(i, cl, o);
        if ncl != 0 {
          WrittenGrown(g, old(disk), old(fdt[..]), old(nodes), old(disk), old(fdt[..]), old(nodes),
                       disk, fdt[..], nodes, i, o, old(fdt[i].pos), [], ncl);
        }
      }
    }

    /** Writes as much of `data` as fits into the sector at the descriptor's position. */
    method WriteSector(i: nat, cl: nat, data: seq<byte>, ghost o: Owner) returns (w: nat)
      requires Valid() && i < fdt.Length && OpenOn(fdt[i], o) && fdt[i].flags.write && o in nodes
      requires |data| > 0 && NoWrap(g, fdt[i].pos + |data|)
      requires ClusIdx(g, fdt[i].pos) < |nodes[o].ch| && cl == nodes[o].ch[ClusIdx(g, fdt[i].pos)]
      modifies this`disk, this`nodes, secbuf, fdt
      ensures Valid() && 0 < w <= |data| && w <= SEC - old(fdt[i].pos) % SEC
      ensures old(fdt[i].pos) <= old(nodes)[o].size
      ensures nodes == old(nodes)[o := old(nodes)[o].(size := Max(old(nodes)[o].size, old(fdt[i].pos) + w))]
      ensures fdt[..] == old(fdt[..])[i := old(fdt[i]).(pos := old(fdt[i].pos) + w, size := nodes[o].size)]
      ensures FileBytes(g, disk, nodes[o]) == Overwrite(FileBytes(g, old(disk), old(nodes)[o]), old(fdt[i].pos),
                                                        data[..w])
      ensures FilesKept(g, old(disk), old(nodes), disk, nodes, {o})
      ensures DirsKept(g, old(disk), old(nodes), disk, nodes, {})
    {
      hide Inv, Fits, Mirrored, Table, FilesKept, DirsKept, FileBytes, DirNames, Capacity, ChainOk, ClusIdx, Overwrite,
           Geometry.Last, Distinct, InVolume, ClusStart, InClus, SecLba, Geometry.ClusLba, Geometry.Valid, Least,
           NoWrap;
      ghost var n, pos := nodes[o], fdt[i].pos;
      OpenFileFacts(g, disk, fdt[..], nodes, i, o);
      var offInClus := InClus(g, fdt[i].pos);
      var s, off := offInClus / SEC, offInClus % SEC;
      w := Least(SEC - off, |data|, |data|);
      SectorPlan(g, disk, n.ch, pos, s, off, w);
      BelowWrap(g, n.ch, pos + w, pos + |data|);
      ReadSec(g.ClusLba(cl) + s);
      Poke(off, data[..w]);
      WriteSec(g.ClusLba(cl) + s);
      ghost var n' := n.(size := Max(n.size, pos + w));
      fdt[i] := fdt[i].(pos := fdt[i].pos + w);
      if fdt[i].pos > fdt[i].size {
        fdt[i] := fdt[i].(size := fdt[i].pos);
      }
      assert fdt[..] == old(fdt[..])[i := old(fdt[i]).(pos := pos + w, size := n'.size)];
      WriteFile(g, old(disk), old(fdt[..]), nodes, i, data[..w], o, fdt[i], n', SecLba(g, n.ch, pos / SEC), disk);
      nodes := nodes[o := n'];
      InvFits(g, disk, fdt[..], nodes);
    }

    /** Writes `buf` at the descriptor's position: all of it, or as much as the disk has room for. */
    method FatWrite(fd: int, buf: seq<byte>) returns (r: int)
      requires Valid()
      requires 0 <= fd - FD_BASE < fdt.Length ==> NoWrap(g, fdt[fd - FD_BASE].pos + |buf|)
      modifies this`disk, this`nextFree, this`nodes, secbuf, fdt
      ensures Valid()
      ensures
        var i := fd - FD_BASE;
        if !(0 <= i < fdt.Length) || !old(fdt[..])[i].used || old(fdt[..])[i].isDir || !old(fdt[..])[i].flags.write then
          && disk == old(disk) && nodes == old(nodes) && fdt[..] == old(fdt[..])
          && r == if !(0 <= i < fdt.Length) || !old(fdt[..])[i].used then ERR_BADFD
                  else if old(fdt[..])[i].isDir then ERR_ISDIR else ERR_INVAL
        else
          var f := old(fdt[..])[i];
          var o := At(f.dirSec, f.dirOff);
          var put := if r == ERR_NOSPC then 0 else r;
          && o in old(nodes) && 0 <= put <= |buf|
          && Written(g, old(disk), old(fdt[..]), old(nodes), disk, fdt[..], nodes, i, o, f.pos, buf[..put])
          && (put < |buf| || r == ERR_NOSPC ==> Full(g, disk))
          && (r >= 0 ==> Tied(g, disk, o, nodes[o]) && (|buf| > 0 ==> r > 0))
    {
      hide Inv, Table, FilesKept, DirsKept, FileBytes, DirNames, Full, Capacity, ChainOk, ClusIdx, Overwrite, Tied,
           Fits;
      var i := fd - FD_BASE;
      if i < 0 || i >= fdt.Length || !fdt[i].used {
        return ERR_BADFD;
      }
      if fdt[i].isDir {
        return ERR_ISDIR;
      }
      if !fdt[i].flags.write {
        return ERR_INVAL;
      }
      ghost var o := At(fdt[i].dirSec, fdt[i].dirOff);
      WriterFacts(g, disk, fdt[..], nodes, i, o);
      WrittenNothing(g, disk, fdt[..], nodes, i, o);
      ghost var d0, fds0, nodes0, p0 := disk, fdt[..], nodes, fdt[i].pos;
      assert buf[..0] == [];
      if fdt[i].start == 0 && |buf| > 0 {
        var c := GrowOpen(i, 0, o);
        if c == 0 {
          return ERR_NOSPC;
        }
        WrittenGrown(g, d0, fds0, nodes0, d0, fds0, nodes0, disk, fdt[..], nodes, i, o, p0, [], c);
      }
      ghost var d1, fds1, nodes1 := disk, fdt[..], nodes;
      var cl, ok := SeekCluster(i, o);
      WrittenThen(g, d0, fds0, nodes0, d1, fds1, nodes1, disk, fdt[..], nodes, i, o, p0, [], []);
      if !ok {
        return ERR_NOSPC;
      }
      ghost var d2, fds2, nodes2 := disk, fdt[..], nodes;
      var put := WriteOpen(i, cl, buf, o);
      WrittenThen(g, d0, fds0, nodes0, d2, fds2, nodes2, disk, fdt[..], nodes, i, o, p0, [], buf[..put]);
      ghost var d3 := disk;
      OpenFilePlace(g, disk, fdt[..], nodes, i, o);
      UpdateDirent(i);
      WrittenBack(g, d0, fds0, nodes0, d3, disk, fdt[..], nodes, i, o, p0, buf[..put]);
      FullStays(g, d3, disk);
      r := put;
    }

    /** Closes a descriptor, writing its file's entry back if it was open for writing. */
    method FatClose(fd: int) returns (r: int)
      requires Valid() || Placeless(fdt[..], fd)
      modifies this`disk, secbuf, fdt
      ensures
        var i := fd - FD_BASE;
        if !(0 <= i < fdt.Length) || !old(fdt[..])[i].used
          then r == ERR_BADFD && disk == old(disk) && fdt[..] == old(fdt[..])
        else r == 0 && fdt[..] == old(fdt[..])[i := old(fdt[..])[i].(used := false)]
      ensures old(Placeless(fdt[..], fd)) ==> disk == old(disk)
      ensures old(Valid()) ==>
        Valid() && FilesKept(g, old(disk), nodes, disk, nodes, {}) && DirsKept(g, old(disk), nodes, disk, nodes, {})
    {
      hide Inv, Fits, Table, FilesKept, DirsKept, Tied;
      var i := fd - FD_BASE;
      KeptSelf(g, disk, nodes, {}, {});
      if i < 0 || i >= fdt.Length || !fdt[i].used {
        return ERR_BADFD;
      }
      if Valid() && !fdt[i].isDir {
        OpenFilePlace(g, disk, fdt[..], nodes, i, At(fdt[i].dirSec, fdt[i].dirOff));
      }
      ghost var lost := Placeless(fdt[..], fd);
      if fdt[i].flags.write && !fdt[i].isDir {
        UpdateDirent(i);
      }
      fdt[i] := fdt[i].(used := false);
      assert fdt[..] == old(fdt[..])[i := fdt[i]];
      if !lost {
        CloseStep(g, disk, old(fdt[..]), nodes, i, fdt[i]);
      }
      r := 0;
    }

    // ---- directories ----

    /** Looks for a name among the sixteen entries of a sector. */
    method ScanSector(lba: nat, want: seq<byte>, ghost secs: seq<nat>, ghost s: nat)
      returns (hit: bool, end: bool, off: nat)
      requires secbuf.Length == SEC && lba < |disk| && s < |secs| && secs[s] == lba
      modifies secbuf
      ensures secbuf[..] == disk[lba]
      ensures hit ==>
        && !end && off % 32 == 0 && off + 32 <= SEC
        && Lookup(disk, secs, want, s * PER_SEC) == Some(s * PER_SEC + off / 32)
      ensures end ==> Lookup(disk, secs, want, s * PER_SEC) == None
      ensures !hit && !end ==> Lookup(disk, secs, want, s * PER_SEC) == Lookup(disk, secs, want, (s + 1) * PER_SEC)
    {
      hide Lookup, Ent, EntOf, Live, NameOf;
      ReadSec(lba);
      for j := 0 to PER_SEC
        invariant secbuf[..] == disk[lba]
        invariant Lookup(disk, secs, want, s * PER_SEC) == Lookup(disk, secs, want, s * PER_SEC + j)
      {
        EntryInSector(disk, secs, s, j);
        LookupStep(disk, secs, want, s * PER_SEC + j);
        var e := secbuf[j * 32..j * 32 + 32];
        if e[0] == 0 {
          return false, true, 0;
        }
        if e[0] == 0xE5 || e[11] == 0x0F {
          continue;
        }
        if e[..11] == want {
          return true, false, j * 32;
        }
      }
      return false, false, 0;
    }

    /** Looks a name up in a directory given by its first cluster. */
    method FindInDir(dirClus: nat, want: seq<byte>, ghost x: Owner)
      returns (found: bool, ent: seq<byte>, sec: nat, off: nat)
      requires Valid() && x in nodes && nodes[x].dir && Designates(g, x, nodes[x], dirClus)
      modifies secbuf
      ensures found <==> want in DirNames(g, disk, x, nodes[x])
      ensures found ==>
        var secs := DirSecs(g, x, nodes[x].ch);
        var k := DirNames(g, disk, x, nodes[x])[want];
        k < |secs| * PER_SEC && At(sec, off) == SlotOf(secs, k) && ent == Ent(disk, secs, k)
    {
      hide Inv, Fits, Table, Chain, DirSecs, Lookup, Names, DirOk, SlotOf, Ent, EntOf, InVolume, Geometry.Valid;
      DirFacts(g, disk, fdt[..], nodes, x);
      ghost var secs := DirSecs(g, x, nodes[x].ch);
      LookupFinds(disk, secs, want, 0);
      var lba := 0;
      if !g.fat32 && dirClus == 0 {
        found, lba, off := FindInFlat(want, x, nodes[x].ch);
      } else {
        var cl: nat := if dirClus != 0 then dirClus else g.rootClus;
        found, lba, off := FindInChain(cl, want, x, nodes[x].ch);
      }
      sec, ent := lba, if found then secbuf[off..off + 32] else seq(32, _ => 0);
    }

    method FindInFlat(want: seq<byte>, ghost x: Owner, ghost ch: seq<nat>) returns (found: bool, lba: nat, off: nat)
      requires Ready() && FlatRoot(g, x)
      modifies secbuf
      ensures Hit(disk, DirSecs(g, x, ch), want, found, lba, off)
      ensures found ==> off + 32 <= SEC && lba < |disk| && secbuf[..] == disk[lba]
    {
      hide Fits, DirSecs, Lookup, SlotOf, Geometry.Valid;
      FitsValid(g, disk);
      FitsSize(g, disk);
      ghost var secs := DirSecs(g, x, ch);
      found, lba, off := false, 0, 0;
      for s := 0 to g.rootSecs
        invariant Lookup(disk, secs, want, 0) == Lookup(disk, secs, want, s * PER_SEC)
      {
        FlatSec(g, x, ch, s);
        var hit, end, o := ScanSector(g.rootStart + s, want, secs, s);
        if hit {
          Landed(disk, secs, want, s, o);
        }
        if hit || end {
          return hit, g.rootStart + s, o;
        }
      }
      FlatCount(g, x, ch);
      LookupEnd(disk, secs, want);
    }

    method FindInChain(first: nat, want: seq<byte>, ghost x: Owner, ghost ch: seq<nat>)
      returns (found: bool, lba: nat, off: nat)
      requires Ready() && !FlatRoot(g, x) && Chain(g, Table(g, disk), ch) && ch != [] && first == ch[0]
      modifies secbuf
      ensures Hit(disk, DirSecs(g, x, ch), want, found, lba, off)
      ensures found ==> off + 32 <= SEC && lba < |disk| && secbuf[..] == disk[lba]
    {
      hide Fits, DirSecs, Lookup, SlotOf, Chain, Table, Geometry.Valid, Geometry.IsEoc, SecNo;
      ghost var secs := DirSecs(g, x, ch);
      found, lba, off := false, 0, 0;
      var cl: nat := first;
      ghost var q: nat := 0;
      SecNoFirst(g);
      ChainNext(g, Table(g, disk), ch, 0);
      while !g.IsEoc(cl) && cl >= 2
        invariant q <= |ch| && (if q < |ch| then cl == ch[q] && cl >= 2 && !g.IsEoc(cl) else g.IsEoc(cl))
        invariant Lookup(disk, secs, want, 0) == Lookup(disk, secs, want, SecNo(g, q) * PER_SEC)
        decreases |ch| - q
      {
        var hit, end, l, o := ScanCluster(cl, want, x, ch, q);
        if hit || end {
          return hit, l, o;
        }
        cl := Link(cl, ch, q);
        q := q + 1;
      }
      ChainCount(g, x, ch);
      LookupEnd(disk, secs, want);
    }

    /** Scans the sectors of one cluster of a directory. */
    method ScanCluster(cl: nat, want: seq<byte>, ghost x: Owner, ghost ch: seq<nat>, ghost q: nat)
      returns (hit: bool, end: bool, lba: nat, off: nat)
      requires Ready() && !FlatRoot(g, x) && Chain(g, Table(g, disk), ch) && q < |ch| && cl == ch[q]
      modifies secbuf
      ensures var secs := DirSecs(g, x, ch);
        if hit || end then
          Lookup(disk, secs, want, 0) == Lookup(disk, secs, want, SecNo(g, q) * PER_SEC) ==>
            Hit(disk, secs, want, hit, lba, off)
        else Lookup(disk, secs, want, SecNo(g, q) * PER_SEC) == Lookup(disk, secs, want, SecNo(g, q + 1) * PER_SEC)
      ensures hit ==> off + 32 <= SEC && lba < |disk| && secbuf[..] == disk[lba]
    {
      hide Fits, DirSecs, Lookup, SlotOf, Chain, Table, Geometry.Valid, SecNo, Geometry.ClusLba, ChainOk, InVolume,
           Distinct;
      FitsValid(g, disk);
      FitsSize(g, disk);
      IsChain(g, Table(g, disk), ch);
      ChainInVolume(g, Table(g, disk), ch);
      ghost var secs, base := DirSecs(g, x, ch), SecNo(g, q);
      SecNoNext(g, q);
      for s := 0 to g.spc
        invariant Lookup(disk, secs, want, base * PER_SEC) == Lookup(disk, secs, want, (base + s) * PER_SEC)
      {
        ChainSec(g, x, ch, q, s);
        var h, e, o := ScanSector(g.ClusLba(cl) + s, want, secs, base + s);
        if h {
          Landed(disk, secs, want, base + s, o);
        }
        if h || e {
          return h, e, g.ClusLba(cl) + s, o;
        }
      }
      return false, false, 0, 0;
    }

    /** Looks for a reusable entry among the sixteen of a sector. */
    method ScanFree(lba: nat, ghost secs: seq<nat>, ghost s: nat) returns (hit: bool, off: nat)
      requires secbuf.Length == SEC && lba < |disk| && s < |secs| && secs[s] == lba
      requires NoFreeBelow(disk, secs, s * PER_SEC)
      modifies secbuf
      ensures hit ==> off % 32 == 0 && off + 32 <= SEC && FirstFree(disk, secs, s * PER_SEC + off / 32)
      ensures !hit ==> NoFreeBelow(disk, secs, (s + 1) * PER_SEC)
    {
      hide Ent, EntOf;
      ReadSec(lba);
      for j := 0 to PER_SEC
        invariant secbuf[..] == disk[lba] && NoFreeBelow(disk, secs, s * PER_SEC + j)
      {
        EntryInSector(disk, secs, s, j);
        var e := secbuf[j * 32..j * 32 + 32];
        if e[0] == 0 || e[0] == 0xE5 {
          return true, j * 32;
        }
      }
      return false, 0;
    }

    method FreeInFlat(ghost x: Owner, ghost ch: seq<nat>) returns (ok: bool, lba: nat, off: nat, ghost k: nat)
      requires Ready() && FlatRoot(g, x)
      modifies secbuf
      ensures ok ==> FreeAt(disk, DirSecs(g, x, ch), k, lba, off)
      ensures !ok ==> NoSlot(g, disk, x, ch)
    {
      hide Fits, DirSecs, SlotOf, Geometry.Valid, FirstFree, NoFreeBelow, NoSlot;
      FitsValid(g, disk);
      FitsSize(g, disk);
      ghost var secs := DirSecs(g, x, ch);
      NoFreeStart(disk, secs);
      for s := 0 to g.rootSecs
        invariant NoFreeBelow(disk, secs, s * PER_SEC)
      {
        FlatSec(g, x, ch, s);
        var hit, o := ScanFree(g.rootStart + s, secs, s);
        if hit {
          Landed(disk, secs, [], s, o);
          return true, g.rootStart + s, o, s * PER_SEC + o / 32;
        }
      }
      FlatNoSlot(g, disk, x, ch);
      return false, 0, 0, 0;
    }

    method FreeInCluster(cl: nat, ghost x: Owner, ghost ch: seq<nat>, ghost q: nat)
      returns (ok: bool, lba: nat, off: nat, ghost k: nat)
      requires Ready() && !FlatRoot(g, x) && Chain(g, Table(g, disk), ch) && q < |ch| && cl == ch[q]
      requires NoFreeBelow(disk, DirSecs(g, x, ch), SecNo(g, q) * PER_SEC)
      modifies secbuf
      ensures ok ==> FreeAt(disk, DirSecs(g, x, ch), k, lba, off)
      ensures !ok ==> NoFreeBelow(disk, DirSecs(g, x, ch), SecNo(g, q + 1) * PER_SEC)
    {
      hide Fits, DirSecs, SlotOf, Chain, Table, Geometry.Valid, SecNo, Geometry.ClusLba, ChainOk, InVolume, Distinct,
           FirstFree, NoFreeBelow;
      FitsValid(g, disk);
      FitsSize(g, disk);
      IsChain(g, Table(g, disk), ch);
      ChainInVolume(g, Table(g, disk), ch);
      ghost var secs, base := DirSecs(g, x, ch), SecNo(g, q);
      SecNoNext(g, q);
      for s := 0 to g.spc
        invariant NoFreeBelow(disk, secs, (base + s) * PER_SEC)
      {
        ChainSec(g, x, ch, q, s);
        var hit, o := ScanFree(g.ClusLba(cl) + s, secs, base + s);
        if hit {
          Landed(disk, secs, [], base + s, o);
          return true, g.ClusLba(cl) + s, o, (base + s) * PER_SEC + o / 32;
        }
      }
      return false, 0, 0, 0;
    }

    /** Scans a directory's chain for a reusable entry; `last` is its last cluster if there is none. */
    method FreeInChain(first: nat, ghost x: Owner, ghost ch: seq<nat>)
      returns (ok: bool, lba: nat, off: nat, last: nat, ghost k: nat)
      requires Ready() && !FlatRoot(g, x) && Chain(g, Table(g, disk), ch) && ch != [] && first == ch[0]
      modifies secbuf
      ensures ok ==> FreeAt(disk, DirSecs(g, x, ch), k, lba, off)
      ensures !ok ==> last == ch[|ch| - 1] && NoFreeBelow(disk, DirSecs(g, x, ch), |DirSecs(g, x, ch)| * PER_SEC)
    {
      hide Fits, DirSecs, Chain, Table, Geometry.Valid, Geometry.IsEoc, SecNo, FirstFree, NoFreeBelow, FreeAt;
      var cl: nat := first;
      ghost var q: nat := 0;
      SecNoFirst(g);
      NoFreeStart(disk, DirSecs(g, x, ch));
      ok, lba, off, last, k := false, 0, 0, first, 0;
      while true
        invariant q < |ch| && cl == ch[q]
        invariant NoFreeBelow(disk, DirSecs(g, x, ch), SecNo(g, q) * PER_SEC)
        decreases |ch| - q
      {
        ok, lba, off, k := FreeInCluster(cl, x, ch, q);
        if ok {
          return;
        }
        var nxt := Link(cl, ch, q);
        if g.IsEoc(nxt) || nxt < 2 {
          ChainCount(g, x, ch);
          last := cl;
          return;
        }
        cl := nxt;
        q := q + 1;
      }
    }

    /** Finds the first reusable entry of a directory; a directory that is a chain grows when it is full. */
    method FindFreeSlot(dirClus: nat, ghost x: Owner) returns (ok: bool, sec: nat, off: nat, ghost k: nat)
      requires Valid() && x in nodes && nodes[x].dir && Designates(g, x, nodes[x], dirClus)
      modifies this`disk, this`nextFree, this`nodes, secbuf
      ensures Valid() && x in nodes && nodes == old(nodes)[x := nodes[x]] && nodes[x].dir
      ensures old(nodes)[x].ch <= nodes[x].ch
      ensures ok ==> FreeAt(disk, DirSecs(g, x, nodes[x].ch), k, sec, off)
      ensures ok <==> !DirFull(g, old(disk), x, old(nodes)[x].ch)
      ensures DirGrew(g, old(disk), disk, old(nodes), nodes, x)
      ensures FilesKept(g, old(disk), old(nodes), disk, nodes, {})
      ensures DirsKept(g, old(disk), old(nodes), disk, nodes, {})
    {
      hide Inv, Fits, Table, Chain, DirSecs, Names, DirOk, InVolume, Geometry.Valid, FilesKept, DirsKept, FreeAt,
           NoFreeBelow, Claimed, Zeroed, Mirrored, DirNames, Distinct, Full, NoSlot;
      DirFacts(g, disk, fdt[..], nodes, x);
      KeptSelf(g, disk, nodes, {}, {});
      ghost var ch := nodes[x].ch;
      assert nodes == nodes[x := nodes[x]];
      if !g.fat32 && dirClus == 0 {
        ok, sec, off, k := FreeInFlat(x, ch);
        if ok {
          SlotFree(g, disk, x, ch, k, sec, off);
        }
        return;
      }
      var cl: nat := if dirClus != 0 then dirClus else g.rootClus;
      var last;
      ok, sec, off, last, k := FreeInChain(cl, x, ch);
      if ok {
        SlotFree(g, disk, x, ch, k, sec, off);
        return;
      }
      assert NoSlot(g, disk, x, ch) by { NoSlotIs(g, disk, x, ch); }
      var nc := ClaimCluster(last, ch);
      if nc == 0 {
        return;
      }
      ClaimedNotFull(g, old(disk), disk, ch, nc);
      ghost var n := nodes[x].(ch := ch + [nc]);
      GrowDirStep(g, old(disk), disk, fdt[..], nodes, x, nc, n);
      NoFreeGrown(g, old(disk), disk, fdt[..], nodes, x, nc, n);
      nodes := nodes[x := n];
      DirFacts(g, disk, fdt[..], nodes, x);
      ok, sec, off, k := FreeInCluster(nc, x, n.ch, |ch|);
      if !ok {
        ZeroedIsFree(g, disk, x, n.ch, nc);
        assert false;
      }
    }

    /** Enters a new name in a directory: a file without clusters, or a directory whose first cluster is `clus`. */
    method CreateEntry(dirClus: nat, name: seq<byte>, clus: nat, ghost x: Owner) returns (ok: bool, sec: nat, off: nat)
      requires Valid() && x in nodes && nodes[x].dir && Designates(g, x, nodes[x], dirClus)
      requires Usable(name) && name !in DirNames(g, disk, x, nodes[x])
      requires clus != 0 ==> Loose(g, disk, nodes, clus)
      modifies this`disk, this`nextFree, this`nodes, secbuf
      ensures Valid() && x in nodes && nodes[x].dir
      ensures ok <==> !DirFull(g, old(disk), x, old(nodes)[x].ch)
      ensures ok ==> At(sec, off) !in old(nodes) && nodes == old(nodes)[x := nodes[x]][At(sec, off) := NewNode(clus)]
      ensures ok ==>
        var secs, names := DirSecs(g, x, nodes[x].ch), DirNames(g, disk, x, nodes[x]);
        name in names && names == DirNames(g, old(disk), x, old(nodes)[x])[name := names[name]]
        && names[name] < |secs| * PER_SEC && SlotOf(secs, names[name]) == At(sec, off)
      ensures ok ==> EntOf(disk, sec, off) == NewEntry(g, name, clus)
      ensures ok && clus != 0 ==>
        HoldsNothing(disk, DirSecs(g, At(sec, off), [clus]))
          && FirstSector(g, disk, clus) == FirstSector(g, old(disk), clus)
      ensures old(nodes)[x].ch <= nodes[x].ch
      ensures !ok ==> nodes == old(nodes)[x := nodes[x]] && DirsKept(g, old(disk), old(nodes), disk, nodes, {})
      ensures FilesKept(g, old(disk), old(nodes), disk, nodes, {})
      ensures DirsKept(g, old(disk), old(nodes), disk, nodes, {x})
    {
      hide Inv, Fits, Table, DirSecs, Names, FilesKept, DirsKept, DirNames, FirstFree, Loose, NewEntry, DirGrew, SlotOf,
           Geometry.Valid, Usable, EntryWritten, EntOf, Enterable, NewNode, HoldsNothing, FirstSector, DirFull;
      ghost var k: nat;
      ok, sec, off, k := FindFreeSlot(dirClus, x);
      KeptWeaken(g, old(disk), old(nodes), disk, nodes, {}, {}, {}, {x});
      if !ok {
        GrewLonger(g, old(disk), disk, old(nodes), nodes, x);
        return;
      }
      ghost var d1, nodes1, o, n := disk, nodes, At(sec, off), NewNode(clus);
      GrewLonger(g, old(disk), disk, old(nodes), nodes, x);
      SameNames(g, old(disk), old(nodes), disk, nodes, x);
      if clus != 0 {
        LooseKept(g, old(disk), disk, old(nodes), nodes, x, clus);
      }
      CreateReady(g, disk, fdt[..], nodes, x, k, o, name, clus);
      ReadSec(sec);
      Poke(off, NewEntry(g, name, clus));
      WriteSec(sec);
      PokedEntry(d1, disk, sec, off, NewEntry(g, name, clus));
      CreateStep(g, d1, fdt[..], nodes, x, k, o, NewEntry(g, name, clus), n, disk);
      if clus != 0 {
        LooseAfter(g, d1, fdt[..], nodes, x, k, o, clus, NewEntry(g, name, clus), disk);
      }
      nodes := nodes[o := n];
      InvFits(g, disk, fdt[..], nodes);
      KeptWeaken(g, d1, nodes1, disk, nodes, {}, {x}, {}, {x});
      KeptOn(g, old(disk), old(nodes), d1, nodes1, disk, nodes, {}, {x});
    }

    /** The first unused descriptor. */
    method AllocFd() returns (idx: int)
      ensures idx == -1 ==> forall j :: 0 <= j < fdt.Length ==> fdt[j].used
      ensures idx != -1 ==> 0 <= idx < fdt.Length && !fdt[idx].used
    {
      for j := 0 to fdt.Length
        invariant forall k :: 0 <= k < j ==> fdt[k].used
      {
        if !fdt[j].used {
          return j;
        }
      }
      return -1;
    }

    /** Puts a free descriptor on a file that can be shared, emptying the file first if asked to. */
    method OpenFile(idx: nat, flags: Flags, sec: nat, off: nat, ghost o: Owner)
      requires Valid() && idx < fdt.Length && !fdt[idx].used
      requires o == At(sec, off) && o in nodes && !nodes[o].dir && Sharable(fdt[..], o, flags.write)
      modifies this`disk, this`nodes, secbuf, fdt
      ensures Valid() && o in nodes && !nodes[o].dir && nodes == old(nodes)[o := nodes[o]]
      ensures fdt[..] == old(fdt[..])[idx := fdt[idx]] && OpenOn(fdt[idx], o) && fdt[idx].flags == flags
      ensures FileBytes(g, disk, nodes[o]) == if flags.trunc && flags.write then []
        else FileBytes(g, old(disk), old(nodes)[o])
      ensures fdt[idx].pos == if flags.append then fdt[idx].size else 0
      ensures flags.trunc && flags.write ==> Table(g, disk) == Cleared(Table(g, old(disk)), old(nodes)[o].ch)
      ensures !(flags.trunc && flags.write) ==> disk == old(disk) && nodes == old(nodes)
      ensures FilesKept(g, old(disk), old(nodes), disk, nodes, {o})
      ensures DirsKept(g, old(disk), old(nodes), disk, nodes, {})
    {
      hide Inv, Fits, Table, FilesKept, DirsKept, Mirrored, Tied, FirstClus, FileSize, Opened, InRange, Cleared,
           OnlyFat, Head, ChainOk, Writing;
      FileEntry(g, disk, fdt[..], nodes, o);
      ReadSec(sec);
      var ent := secbuf[off..off + 32];
      var start, size := FirstClus(g, ent), FileSize(ent);
      ghost var f1 := Fd(true, flags, false, start, size, 0, sec, off);
      ghost var fds1 := fdt[..][idx := f1];
      OpenStep(g, disk, fdt[..], nodes, idx, f1);
      if flags.trunc && flags.write {
        if start != 0 {
          FreeChain(start);
        }
        ReleasedBy(g, old(disk), disk, fds1, nodes, o, start);
        start, size := 0, 0;
        fdt[idx] := Fd(true, flags, false, start, size, 0, sec, off);
        assert fdt[..] == fds1[idx := fdt[idx]];
        TruncStep(g, old(disk), disk, fds1, nodes, idx, o, fdt[idx], Node(false, [], 0));
        nodes := nodes[o := Node(false, [], 0)];
        InvFits(g, disk, fdt[..], nodes);
      } else {
        KeptSelf(g, disk, nodes, {o}, {});
        fdt[idx] := Fd(true, flags, false, start, size, if flags.append then size else 0, sec, off);
        assert fdt[..] == fds1[idx := fdt[idx]];
        assert nodes == nodes[o := nodes[o]];
        PosStep(g, disk, fds1, nodes, idx, fdt[idx]);
      }
      assert fdt[..] == old(fdt[..])[idx := fdt[idx]];
    }

    /** Opens an entry that was found or just made: a directory only if asked for, a file emptied if asked to. */
    method OpenFound(flags: Flags, sec: nat, off: nat, isDir: bool, ghost o: Owner) returns (r: int)
      requires Valid() && o == At(sec, off) && o in nodes && isDir == nodes[o].dir
      requires Sharable(fdt[..], o, flags.write)
      modifies this`disk, this`nodes, secbuf, fdt
      ensures Valid() && o in nodes && nodes == old(nodes)[o := nodes[o]] && nodes[o].dir == isDir
      ensures r == ERR_ISDIR <==> isDir && !flags.dir
      ensures isDir ==> nodes == old(nodes) && disk == old(disk)
      ensures r == ERR_NOSPC <==> !(isDir && !flags.dir) && NoFd(old(fdt[..]))
      ensures r < 0 ==>
        r in {ERR_ISDIR, ERR_NOSPC} && fdt[..] == old(fdt[..]) && disk == old(disk) && nodes == old(nodes)
      ensures r >= 0 ==> Fresh(old(fdt[..]), fdt[..], r, flags, isDir, o)
      ensures r >= 0 && !isDir ==>
        && FileBytes(g, disk, nodes[o]) == (if flags.trunc && flags.write then []
                                            else FileBytes(g, old(disk), old(nodes)[o]))
        && fdt[r - FD_BASE].pos == if flags.append then |FileBytes(g, disk, nodes[o])| else 0
      ensures FilesKept(g, old(disk), old(nodes), disk, nodes, {o})
      ensures DirsKept(g, old(disk), old(nodes), disk, nodes, {})
    {
      hide Inv, Fits, Table, FilesKept, DirsKept, DirNames, Opened, Cleared, FileBytes;
      KeptSelf(g, disk, nodes, {o}, {});
      assert nodes == nodes[o := nodes[o]];
      if isDir && !flags.dir {
        return ERR_ISDIR;
      }
      var idx := AllocFd();
      if idx < 0 {
        return ERR_NOSPC;
      }
      if isDir {
        fdt[idx] := Fd(true, flags, true, 0, 0, 0, 0, 0);
        assert fdt[..] == old(fdt[..])[idx := fdt[idx]];
        OpenStep(g, disk, old(fdt[..]), nodes, idx, fdt[idx]);
      } else {
        OpenFile(idx, flags, sec, off, o);
        OpenSize(g, disk, fdt[..], nodes, idx, o);
      }
      r := FD_BASE + idx;
    }

    /** Opens the entry called `want` of a directory; a missing one is created if asked for. */
    method OpenEntry(dirClus: nat, want: seq<byte>, flags: Flags, ghost x: Owner) returns (r: int)
      requires Valid() && x in nodes && nodes[x].dir && Designates(g, x, nodes[x], dirClus) && Usable(want)
      requires Sharable(fdt[..], Named(g, disk, x, nodes[x], want), flags.write)
      modifies this`disk, this`nextFree, this`nodes, secbuf, fdt
      ensures Valid() && x in nodes && nodes[x].dir
      ensures EntryOpened(g, old(disk), old(nodes), old(fdt[..]), disk, nodes, fdt[..], x, want, flags, r)
    {
      hide Inv, Fits, Table, FilesKept, DirsKept, DirNames, DirSecs, Opened, Usable, NewEntry, EntOf, Ent, Tied, Named,
           Designates, FileBytes, SlotOf, DirGrew, DirFull, NoFd, IsDirAttr, OpenOn, Live, NameOf, FirstClus, Writing;
      var found, ent, sec, off := FindInDir(dirClus, want, x);
      if found {
        ghost var o := At(sec, off);
        FoundNode(g, disk, fdt[..], nodes, x, want, o, ent);
        r := OpenFound(flags, sec, off, IsDirAttr(ent), o);
        SameNamed(g, old(disk), old(nodes), disk, nodes, x, o, want);
        KeptWeaken(g, old(disk), old(nodes), disk, nodes, {o}, {}, {o}, {x});
        return;
      }
      r := OpenNew(dirClus, want, flags, x);
    }

    /** Creates a file, if asked for, and opens it. */
    method OpenNew(dirClus: nat, want: seq<byte>, flags: Flags, ghost x: Owner) returns (r: int)
      requires Valid() && x in nodes && nodes[x].dir && Designates(g, x, nodes[x], dirClus) && Usable(want)
      requires want !in DirNames(g, disk, x, nodes[x])
      modifies this`disk, this`nextFree, this`nodes, secbuf, fdt
      ensures Valid() && x in nodes && nodes[x].dir
      ensures EntryOpened(g, old(disk), old(nodes), old(fdt[..]), disk, nodes, fdt[..], x, want, flags, r)
    {
      hide Inv, Fits, Table, FilesKept, DirsKept, DirNames, DirSecs, Opened, Usable, NewEntry, EntOf, Ent, Tied, Named,
           Designates, FileBytes, SlotOf, DirGrew, DirFull, NoFd, IsDirAttr, OpenOn, Live, NameOf, FirstClus, Writing;
      KeptSelf(g, disk, nodes, {Named(g, disk, x, nodes[x], want)}, {x});
      if !flags.create {
        return ERR_NOENT;
      }
      var ok, sec, off := CreateEntry(dirClus, want, 0, x);
      if !ok {
        SameNames(g, old(disk), old(nodes), disk, nodes, x);
        KeptWeaken(g, old(disk), old(nodes), disk, nodes, {}, {x}, {Named(g, disk, x, nodes[x], want)}, {x});
        return ERR_NOSPC;
      }
      ghost var o, d1, nodes1 := At(sec, off), disk, nodes;
      NewNamed(g, disk, old(nodes), nodes, x, o, want);
      NewIsClosed(g, fdt[..], old(disk), old(nodes), o);
      KeptWeaken(g, old(disk), old(nodes), disk, nodes, {}, {x}, {o}, {x});
      r := OpenFound(flags, sec, off, false, o);
      SameNamed(g, d1, nodes1, disk, nodes, x, o, want);
      KeptWeaken(g, d1, nodes1, disk, nodes, {o}, {}, {o}, {x});
      KeptOn(g, old(disk), old(nodes), d1, nodes1, disk, nodes, {o}, {x});
      EmptyFile(g, d1);
    }

    /** Puts a free descriptor on a file whose entry was not found again, emptying the file first if asked to. */
    method OpenLost(flags: Flags, ent: seq<byte>, ghost o: Owner) returns (r: int)
      requires Valid() && o in nodes && o.At? && !nodes[o].dir && ent == EntOf(disk, o.sec, o.off)
      requires Sharable(fdt[..], o, flags.write)
      modifies this`disk, secbuf, fdt
      ensures r == ERR_NOSPC <==> NoFd(old(fdt[..]))
      ensures r < 0 ==> r == ERR_NOSPC && fdt[..] == old(fdt[..]) && disk == old(disk)
      ensures r >= 0 ==> LostOpened(g, old(disk), nodes, old(fdt[..]), disk, fdt[..], o, flags, r) && !Valid()
    {
      hide Inv, Fits, Table, Mirrored, FirstClus, FileSize, Opened, InRange, Cleared, OnlyFat, Head, EntOf;
      var idx := AllocFd();
      if idx < 0 {
        return ERR_NOSPC;
      }
      EntryTells(g, disk, fdt[..], nodes, o);
      var start, size := FirstClus(g, ent), FileSize(ent);
      if flags.trunc && flags.write {
        if start != 0 {
          FreeChain(start);
        }
        ReleasedBy(g, old(disk), disk, fdt[..], nodes, o, start);
        start, size := 0, 0;
      }
      fdt[idx] := Fd(true, flags, false, start, size, if flags.append then size else 0, 0, 0);
      assert fdt[..] == old(fdt[..])[idx := fdt[idx]];
      r := FD_BASE + idx;
      LostBreaks(g, disk, fdt[..], nodes, idx);
    }

    /** Puts a free descriptor on a directory that was found when a file was looked up again. */
    method OpenOther(flags: Flags, ent: seq<byte>, sec: nat, off: nat) returns (r: int)
      requires Valid() && |ent| == 32
      modifies fdt
      ensures Valid()
      ensures r == ERR_NOSPC <==> NoFd(old(fdt[..]))
      ensures r == ERR_ISDIR <==> !NoFd(old(fdt[..])) && !flags.dir && !flags.read
      ensures r < 0 ==> r in {ERR_ISDIR, ERR_NOSPC} && fdt[..] == old(fdt[..])
      ensures r >= 0 ==> Fresh(old(fdt[..]), fdt[..], r, flags, true, Root)
    {
      hide Inv, FirstClus, FileSize;
      var idx := AllocFd();
      if idx < 0 {
        return ERR_NOSPC;
      }
      if !flags.dir && !flags.read {
        return ERR_ISDIR;
      }
      var size := FileSize(ent);
      fdt[idx] := Fd(true, flags, true, FirstClus(g, ent), size, if flags.append then size else 0, sec, off);
      assert fdt[..] == old(fdt[..])[idx := fdt[idx]];
      OpenStep(g, disk, old(fdt[..]), nodes, idx, fdt[idx]);
      r := FD_BASE + idx;
    }

    /** Opens the root directory: only as a directory, unless it is named by the volume's plain name. */
    method OpenRoot(flags: Flags, plain: bool) returns (r: int)
      requires Valid()
      modifies fdt
      ensures Valid() && (r == ERR_ISDIR <==> !flags.dir && !plain)
      ensures (r == ERR_NOSPC <==> r != ERR_ISDIR && NoFd(old(fdt[..])))
      ensures if r >= 0 then Fresh(old(fdt[..]), fdt[..], r, flags, true, Root)
              else r in {ERR_ISDIR, ERR_NOSPC} && fdt[..] == old(fdt[..])
    {
      hide Inv;
      if !flags.dir && !plain {
        return ERR_ISDIR;
      }
      var idx := AllocFd();
      if idx < 0 {
        return ERR_NOSPC;
      }
      fdt[idx] := Fd(true, flags, true, 0, 0, 0, 0, 0);
      assert fdt[..] == old(fdt[..])[idx := fdt[idx]];
      OpenStep(g, disk, old(fdt[..]), nodes, idx, fdt[idx]);
      r := FD_BASE + idx;
    }

    /**
     * Opens the entry called `want` of a directory. A file that is there is looked up again by `leaf`, the text behind
     * the path's last slash: that entry is opened then, or none is tied to the descriptor.
     */
    method FatOpen(dirClus: nat, want: seq<byte>, leaf: Option<seq<byte>>, flags: Flags, ghost x: Owner)
      returns (r: int)
      requires Valid() && x in nodes && nodes[x].dir && Designates(g, x, nodes[x], dirClus) && Usable(want)
      requires leaf.Some? ==>
        Usable(leaf.value) && Sharable(fdt[..], Named(g, disk, x, nodes[x], leaf.value), flags.write)
      requires Sharable(fdt[..], Named(g, disk, x, nodes[x], want), flags.write)
      modifies this`disk, this`nextFree, this`nodes, secbuf, fdt
      ensures LeafOutcome(g, old(disk), old(nodes), old(fdt[..]), disk, nodes, fdt[..], x, want, leaf, flags, r)
      ensures Valid() <==> !(Found(g, old(disk), old(nodes), x, want, leaf) == Nothing && r >= 0)
    {
      hide Inv, DirNames, DirSecs, Opened, Usable, EntOf, Ent, Named, Designates, SlotOf, EntryOpened, NoFd, Fresh,
           IsDirAttr, Live, NameOf, FirstClus, Writing, LostOpened, Table;
      var found, ent, sec, off := FindInDir(dirClus, want, x);
      if found {
        FoundNode(g, disk, fdt[..], nodes, x, want, At(sec, off), ent);
      }
      if !found || IsDirAttr(ent) || leaf == Some(want) {
        r := OpenEntry(dirClus, want, flags, x);
        return;
      }
      var again, ent2, sec2, off2 := false, ent, 0, 0;
      if leaf.Some? {
        again, ent2, sec2, off2 := FindInDir(dirClus, leaf.value, x);
      }
      if !again {
        r := OpenLost(flags, ent, At(sec, off));
        return;
      }
      FoundNode(g, disk, fdt[..], nodes, x, leaf.value, At(sec2, off2), ent2);
      if IsDirAttr(ent2) {
        r := OpenOther(flags, ent2, sec2, off2);
      } else {
        r := OpenEntry(dirClus, leaf.value, flags, x);
      }
    }

    /** Looks for an entry other than the links among the sixteen of a sector. */
    method ScanBusy(lba: nat, ghost secs: seq<nat>, ghost s: nat) returns (busy: bool, end: bool)
      requires secbuf.Length == SEC && lba < |disk| && s < |secs| && secs[s] == lba && DirOk(disk, secs)
      requires NothingBelow(disk, secs, s * PER_SEC)
      modifies secbuf
      ensures busy ==> !HoldsNothing(disk, secs)
      ensures !busy && end ==> HoldsNothing(disk, secs)
      ensures !busy && !end ==> NothingBelow(disk, secs, (s + 1) * PER_SEC)
    {
      hide Ent, EntOf, DirOk, Plain, LinkName, HoldsNothing, NothingBelow;
      ReadSec(lba);
      for j := 0 to PER_SEC
        invariant secbuf[..] == disk[lba] && NothingBelow(disk, secs, s * PER_SEC + j)
      {
        EntryInSector(disk, secs, s, j);
        BusyStep(disk, secs, s * PER_SEC + j);
        var e := secbuf[j * 32..j * 32 + 32];
        if e[0] == 0 {
          return false, true;
        }
        if e[0] == 0xE5 || e[11] == 0x0F {
          continue;
        }
        if Plain(e) {
          return true, false;
        }
      }
      return false, false;
    }

    /** Tells whether a subdirectory holds nothing but its links. */
    method DirIsEmpty(first: nat, ghost o: Owner, ghost ch: seq<nat>) returns (empty: bool)
      requires Ready() && o.At? && Chain(g, Table(g, disk), ch) && ch != [] && first == ch[0]
      requires DirOk(disk, DirSecs(g, o, ch))
      modifies secbuf
      ensures empty <==> HoldsNothing(disk, DirSecs(g, o, ch))
    {
      hide Fits, DirSecs, Chain, Table, Geometry.Valid, Geometry.IsEoc, SecNo, NothingBelow, DirOk, HoldsNothing;
      var cl: nat := first;
      ghost var q: nat := 0;
      ghost var secs := DirSecs(g, o, ch);
      SecNoFirst(g);
      NothingStart(disk, secs);
      ChainNext(g, Table(g, disk), ch, 0);
      while !g.IsEoc(cl) && cl >= 2
        invariant q <= |ch| && (if q < |ch| then cl == ch[q] && cl >= 2 && !g.IsEoc(cl) else g.IsEoc(cl))
        invariant NothingBelow(disk, secs, SecNo(g, q) * PER_SEC)
        decreases |ch| - q
      {
        var busy, end := BusyCluster(cl, o, ch, q);
        if busy || end {
          return !busy;
        }
        cl := Link(cl, ch, q);
        q := q + 1;
      }
      ChainCount(g, o, ch);
      NothingAtAll(disk, secs);
      return true;
    }

    method BusyCluster(cl: nat, ghost o: Owner, ghost ch: seq<nat>, ghost q: nat) returns (busy: bool, end: bool)
      requires Ready() && o.At? && Chain(g, Table(g, disk), ch) && q < |ch| && cl == ch[q]
      requires DirOk(disk, DirSecs(g, o, ch))
      requires NothingBelow(disk, DirSecs(g, o, ch), SecNo(g, q) * PER_SEC)
      modifies secbuf
      ensures var secs := DirSecs(g, o, ch);
        && (busy ==> !HoldsNothing(disk, secs)) && (!busy && end ==> HoldsNothing(disk, secs))
        && (!busy && !end ==> NothingBelow(disk, secs, SecNo(g, q + 1) * PER_SEC))
    {
      hide Fits, DirSecs, Chain, Table, Geometry.Valid, SecNo, Geometry.ClusLba, ChainOk, InVolume, Distinct,
           NothingBelow, DirOk, HoldsNothing;
      FitsValid(g, disk);
      FitsSize(g, disk);
      IsChain(g, Table(g, disk), ch);
      ChainInVolume(g, Table(g, disk), ch);
      ghost var secs, base := DirSecs(g, o, ch), SecNo(g, q);
      SecNoNext(g, q);
      for s := 0 to g.spc
        invariant NothingBelow(disk, secs, (base + s) * PER_SEC)
      {
        ChainSec(g, o, ch, q, s);
        busy, end := ScanBusy(g.ClusLba(cl) + s, secs, base + s);
        if busy || end {
          return;
        }
      }
      return false, false;
    }

    /** Removes a file nobody has open, or an empty directory, and gives its clusters back. */
    method FatUnlink(dirClus: nat, want: seq<byte>, ghost x: Owner) returns (r: int)
      requires Valid() && x in nodes && nodes[x].dir && Designates(g, x, nodes[x], dirClus) && Usable(want)
      requires Told(g, disk, fdt[..], nodes, Named(g, disk, x, nodes[x], want))
      modifies this`disk, this`nodes, secbuf
      ensures Ready() && x in nodes && nodes[x] == old(nodes)[x]
      ensures
        var ok := r != 0 || !Opened(fdt[..], Named(g, old(disk), x, old(nodes)[x], want));
        (Valid() <==> ok) && (Sound(g, disk, fdt[..]) <==> ok)
      ensures
        var m0, o := DirNames(g, old(disk), x, old(nodes)[x]), Named(g, old(disk), x, old(nodes)[x], want);
        && (r == ERR_NOENT <==> want !in m0)
        && (want in m0 ==> o in old(nodes))
        && (r == 0 ==> nodes == old(nodes) - {o} && DirNames(g, disk, x, nodes[x]) == m0 - {want}
                       && Table(g, disk) == Cleared(Table(g, old(disk)), old(nodes)[o].ch))
        && (r != 0 ==> disk == old(disk) && nodes == old(nodes))
        && (r == ERR_INVAL <==> want in m0 && (IsVolume(OwnEnt(old(disk), o)) ||
                                 (old(nodes)[o].dir && !HoldsNothing(old(disk), DirSecs(g, o, old(nodes)[o].ch)))))
        && FilesKept(g, old(disk), old(nodes), disk, nodes, {o})
        && DirsKept(g, old(disk), old(nodes), disk, nodes, {o, x})
      ensures r == 0 || r == ERR_NOENT || r == ERR_INVAL
    {
      hide Inv, Fits, Table, FilesKept, DirsKept, DirNames, DirSecs, Opened, Usable, EntOf, Ent, Tied, Named, Chain,
           Head, Writing, Designates, FileBytes, SlotOf, HoldsNothing, DirOk, Cleared, IsVolume, FirstClus, IsDirAttr,
           OnlyFat, Live, NameOf, Mirrored, InRange, Freed, EntryWritten, InVolume, Distinct, Dropped, Told,
           Geometry.InFat;
      ghost var o := Named(g, disk, x, nodes[x], want);
      KeptSelf(g, disk, nodes, {o}, {o, x});
      var found, ent, sec, off := FindInDir(dirClus, want, x);
      if !found {
        return ERR_NOENT;
      }
      FoundNode(g, disk, fdt[..], nodes, x, want, At(sec, off), ent);
      ghost var fds := Dropped(fdt[..], o);
      NoEntryAtZero(g, disk, fdt[..], nodes, o);
      DroppedInv(g, disk, fdt[..], nodes, o);
      FoundNode(g, disk, fds, nodes, x, want, At(sec, off), ent);
      NotWriting(fds, o);
      if IsVolume(ent) {
        return ERR_INVAL;
      }
      var start := FirstClus(g, ent);
      ghost var ch := nodes[o].ch;
      if IsDirAttr(ent) {
        DirFacts(g, disk, fds, nodes, o);
        DirHead(g, o, Table(g, disk), ch);
        var empty := DirIsEmpty(start, o, ch);
        if !empty {
          return ERR_INVAL;
        }
      }
      ChainsOf(g, disk, fds, nodes);
      ghost var d0, k, e1 := disk, DirNames(g, disk, x, nodes[x])[want], Patch(ent, 0, [0xE5]);
      ReadSec(sec);
      Poke(off, [0xE5]);
      WriteSec(sec);
      ghost var d1 := disk;
      MarkedEntry(d0, d1, sec, off, ent, e1);
      DeleteEntry(g, d0, fds, nodes, x, k, o, e1, d1);
      UnlinkedFacts(g, d1, fds, old(nodes), o, ch, start);
      nodes := nodes - {o};
      if start >= 2 {
        FreeChain(start);
      }
      FreedChain(g, d1, disk, ch, start);
      ReleaseStep(g, d1, disk, fds, nodes, ch);
      InvFits(g, disk, fds, nodes);
      MarkKept(g, d0, d1, disk, sec, off, e1);
      StrandedBreaks(g, disk, fdt[..], o);
      SameNames(g, d1, nodes, disk, nodes, x);
      KeptWeaken(g, d1, nodes, disk, nodes, {}, {}, {o}, {o, x});
      KeptOn(g, d0, old(nodes), d1, nodes, disk, nodes, {o}, {o, x});
      r := 0;
    }

    /** Makes a directory holding only its links to itself and to its parent. */
    method FatMkdir(dirClus: nat, want: seq<byte>, ghost x: Owner) returns (r: int)
      requires Valid() && x in nodes && nodes[x].dir && Designates(g, x, nodes[x], dirClus) && Usable(want)
      modifies this`disk, this`nextFree, this`nodes, secbuf
      ensures Valid() && x in nodes && nodes[x].dir
      ensures r == ERR_EXIST <==> want in DirNames(g, old(disk), x, old(nodes)[x])
      ensures r == ERR_EXIST ==> disk == old(disk) && nodes == old(nodes)
      ensures r == ERR_NOSPC ==> DirLonger(g, old(disk), old(nodes), disk, nodes, x)
      ensures r == ERR_NOSPC <==>
        want !in DirNames(g, old(disk), x, old(nodes)[x]) && NoRoomForDir(g, old(disk), x, old(nodes)[x].ch)
      ensures
        r == 0 ==>
          var o := Named(g, disk, x, nodes[x], want);
          && NameAdded(g, old(disk), old(nodes), disk, nodes, x, want)
          && nodes[o].dir && |nodes[o].ch| == 1 && HoldsNothing(disk, DirSecs(g, o, nodes[o].ch))
          && HasLinks(g, disk, nodes[o].ch[0], dirClus)
      ensures r == 0 || r == ERR_EXIST || r == ERR_NOSPC
      ensures FilesKept(g, old(disk), old(nodes), disk, nodes, {})
      ensures DirsKept(g, old(disk), old(nodes), disk, nodes, {x})
    {
      hide Inv, Fits, Table, FilesKept, DirsKept, DirNames, DirSecs, Usable, EntOf, Ent, Named, Designates, FileBytes,
           SlotOf, DirOk, Loose, NewEntry, DirGrew, FirstSector, LinksSector, Full, NoSlot, AtMostOne;
      ghost var d0, nodes0 := disk, nodes;
      KeptSelf(g, disk, nodes, {}, {x});
      assert nodes == nodes[x := nodes[x]];
      var found, ent, sec, off := FindInDir(dirClus, want, x);
      if found {
        return ERR_EXIST;
      }
      DesignatesShort(g, disk, fdt[..], nodes, x, dirClus);
      var c := MakeLinks(dirClus);
      if c == 0 {
        return ERR_NOSPC;
      }
      ghost var d2 := disk;
      SameNames(g, d0, nodes, d2, nodes, x);
      KeptWeaken(g, d0, nodes, d2, nodes, {}, {}, {}, {x});
      var ok;
      ok, sec, off := CreateEntry(dirClus, want, c, x);
      KeptOn(g, d0, nodes0, d2, nodes0, disk, nodes, {}, {x});
      if !ok {
        SameNames(g, d2, nodes0, disk, nodes, x);
        return ERR_NOSPC;
      }
      NewNamed(g, disk, nodes0, nodes, x, At(sec, off), want);
      r := 0;
    }

    /** Claims a cluster and writes a new directory's links into it; 0 means the disk is full. */
    method MakeLinks(parent: nat) returns (c: nat)
      requires Valid() && ShortClus(g, parent)
      modifies this`disk, this`nextFree, secbuf
      ensures Valid() && (c == 0 ==> disk == old(disk))
      ensures (c != 0 ==> Loose(g, disk, nodes, c) && HasLinks(g, disk, c, parent))
      ensures c == 0 <==> Full(g, old(disk))
      ensures c != 0 ==> (Full(g, disk) <==> AtMostOne(g, old(disk)))
      ensures c != 0 ==> forall x :: x in nodes && nodes[x].dir ==>
        (NoSlot(g, disk, x, nodes[x].ch) <==> NoSlot(g, old(disk), x, nodes[x].ch))
      ensures FilesKept(g, old(disk), nodes, disk, nodes, {}) && DirsKept(g, old(disk), nodes, disk, nodes, {})
    {
      hide Inv, Fits, Table, FilesKept, DirsKept, Chain, Mirrored, Claimed, Zeroed, Loose, LinksSector, ChainOk,
           Geometry.ClusLba, Patch, Full, AtMostOne, NoSlot;
      ghost var d0 := disk;
      KeptSelf(g, disk, nodes, {}, {});
      InvFits(g, disk, fdt[..], nodes);
      NoChain(g, Table(g, disk));
      c := ClaimCluster(0, []);
      if c == 0 {
        return;
      }
      ghost var d1 := disk;
      ClaimLoose(g, d0, d1, fdt[..], nodes, c);
      ClaimedRange(g, d0, d1, [], c);
      PlaceLinks(g, d1, c);
      forall i | 0 <= i < SEC {
        secbuf[i] := 0;
      }
      assert secbuf[..] == seq(SEC, _ => 0);
      Poke(0, LinksSector(g, c, parent));
      WriteSec(g.ClusLba(c));
      assert fdt[..] == old(fdt[..]);
      LinksWritten(g, d0, d1, disk, fdt[..], nodes, c, parent);
      ClaimedNotFull(g, d0, d1, [], c);
      ClaimedLast(g, d0, d1, c);
      SlotsKept(g, d0, d1, disk, fdt[..], nodes, c);
      KeptOn(g, d0, nodes, d1, nodes, disk, nodes, {}, {});
      InvFits(g, disk, fdt[..], nodes);
    }
  }

  /** What opening an entry by its name does. */
  ghost predicate EntryOpened(g: Geometry, d: Disk, nodes: Nodes, fds: seq<Fd>, d': Disk, nodes': Nodes, fds': seq<Fd>,
                              x: Owner, want: seq<byte>, flags: Flags, r: int)
  {
    && x in nodes && x in nodes'
    && (var m0, o := DirNames(g, d, x, nodes[x]), Named(g, d', x, nodes'[x], want);
        && (r == ERR_NOENT <==> want !in m0 && !flags.create)
        && (if want in m0 then NameReached(g, d, nodes, d', nodes', x, o, flags.trunc && flags.write && r >= 0)
            else if r == ERR_NOENT then d' == d && nodes' == nodes
            else if want in DirNames(g, d', x, nodes'[x]) then
              && NameAdded(g, d, nodes, d', nodes', x, want)
              && !nodes'[o].dir && FileBytes(g, d', nodes'[o]) == []
            else r == ERR_NOSPC && DirLonger(g, d, nodes, d', nodes', x))
        && (r == ERR_ISDIR <==> want in m0 && o in nodes' && nodes'[o].dir && !flags.dir)
        && (r >= 0 || r == ERR_NOENT || r == ERR_NOSPC || r == ERR_ISDIR))
    && (var had, full := want in DirNames(g, d, x, nodes[x]), DirFull(g, d, x, nodes[x].ch);
        && (r == ERR_NOSPC <==> r != ERR_NOENT && r != ERR_ISDIR && ((!had && full) || NoFd(fds)))
        && (!had && flags.create ==> (want in DirNames(g, d', x, nodes'[x]) <==> !full)))
    && (var o := Named(g, d', x, nodes'[x], want);
        r >= 0 ==>
          && o in nodes' && Fresh(fds, fds', r, flags, nodes'[o].dir, o)
          && (!nodes'[o].dir ==> fds'[r - FD_BASE].pos == if flags.append then |FileBytes(g, d', nodes'[o])| else 0))
    && (r < 0 ==> fds' == fds)
    && FilesKept(g, d, nodes, d', nodes', {Named(g, d', x, nodes'[x], want)}) && DirsKept(g, d, nodes, d', nodes', {x})
  }

  /** The descriptor is in use on a file and names no entry. */
  predicate Placeless(fds: seq<Fd>, fd: int) {
    var i := fd - FD_BASE;
    0 <= i < |fds| && fds[i].used && !fds[i].isDir && fds[i].dirSec == 0
  }

  /** What the second lookup finds: the entry that is wanted, another file, a directory, or nothing. */
  datatype Again = Wanted | OtherFile | OtherDir | Nothing

  /** A file that is there is looked up a second time; nothing else is. */
  ghost function Found(g: Geometry, d: Disk, nodes: Nodes, x: Owner, want: seq<byte>, leaf: Option<seq<byte>>): Again
    requires x in nodes
  {
    var m, o := DirNames(g, d, x, nodes[x]), Named(g, d, x, nodes[x], want);
    if want !in m || (o in nodes && nodes[o].dir) || leaf == Some(want) then Wanted
    else if leaf.None? || leaf.value !in m then Nothing
    else
      var o2 := Named(g, d, x, nodes[x], leaf.value);
      if o2 in nodes && nodes[o2].dir then OtherDir else OtherFile
  }

  /** A file was opened by a descriptor that names no entry; its clusters are freed if it was to be emptied. */
  ghost predicate LostOpened(g: Geometry, d: Disk, nodes: Nodes, fds: seq<Fd>, d': Disk, fds': seq<Fd>, o: Owner,
                             flags: Flags, r: int)
  {
    var i, empty := r - FD_BASE, flags.trunc && flags.write;
    && o in nodes && 0 <= i < |fds| && !fds[i].used
    && (var start, size := if empty then 0 else Head(nodes[o].ch), if empty then 0 else nodes[o].size;
        fds' == fds[i := Fd(true, flags, false, start, size, if flags.append then size else 0, 0, 0)])
    && (if empty then (nodes[o].ch == [] ==> d' == d) && Released(g, d, d', nodes[o].ch) else d' == d)
  }

  /** What opening does, by what the second lookup finds. */
  ghost predicate LeafOutcome(g: Geometry, d: Disk, nodes: Nodes, fds: seq<Fd>, d': Disk, nodes': Nodes, fds': seq<Fd>,
                              x: Owner, want: seq<byte>, leaf: Option<seq<byte>>, flags: Flags, r: int)
    requires x in nodes
  {
    match Found(g, d, nodes, x, want, leaf)
    case Wanted => EntryOpened(g, d, nodes, fds, d', nodes', fds', x, want, flags, r)
    case OtherFile => leaf.Some? && EntryOpened(g, d, nodes, fds, d', nodes', fds', x, leaf.value, flags, r)
    case OtherDir => d' == d && nodes' == nodes && DirOpened(fds, fds', flags, r)
    case Nothing => nodes' == nodes && LostOutcome(g, d, nodes, fds, d', fds', Named(g, d, x, nodes[x], want), flags, r)
  }

  /** What opening does when it finds a directory where it found a file at first. */
  ghost predicate DirOpened(fds: seq<Fd>, fds': seq<Fd>, flags: Flags, r: int) {
    && (r == ERR_NOSPC <==> NoFd(fds)) && (r == ERR_ISDIR <==> !NoFd(fds) && !flags.dir && !flags.read)
    && (if r >= 0 then Fresh(fds, fds', r, flags, true, Root) else r in {ERR_ISDIR, ERR_NOSPC} && fds' == fds)
  }

  /** What opening does when the file it found is not found again. */
  ghost predicate LostOutcome(g: Geometry, d: Disk, nodes: Nodes, fds: seq<Fd>, d': Disk, fds': seq<Fd>, o: Owner,
                              flags: Flags, r: int)
  {
    && (r == ERR_NOSPC <==> NoFd(fds))
    && (if r >= 0 then LostOpened(g, d, nodes, fds, d', fds', o, flags, r)
        else r == ERR_NOSPC && fds' == fds && d' == d)
  }

  /** No entry lies in sector 0 or in the table. */
  lemma NoEntryAtZero(g: Geometry, d: Disk, fds: seq<Fd>, nodes: Nodes, o: Owner)
    requires Inv(g, d, fds, nodes) && o in nodes && o.At?
    ensures o.sec > 0 && !g.InFat(o.sec)
  {
    hide EntriesOk, Complete, DirsOk, Mirrored, InRange, InDir, ChainsOk, FdsOk;
    DirBehindFat(g, nodes, o.sec);
  }

  lemma LostBreaks(g: Geometry, d: Disk, fds: seq<Fd>, nodes: Nodes, i: nat)
    requires i < |fds| && fds[i].used && !fds[i].isDir && fds[i].dirSec == 0
    ensures !Inv(g, d, fds, nodes)
  {
    hide Inv;
    if Inv(g, d, fds, nodes) {
      OpenFilePlace(g, d, fds, nodes, i, At(0, fds[i].dirOff));
    }
  }

  lemma EntryTells(g: Geometry, d: Disk, fds: seq<Fd>, nodes: Nodes, o: Owner)
    requires Inv(g, d, fds, nodes) && o in nodes && o.At? && !nodes[o].dir && !Writing(fds, o)
    ensures Fits(g, d) && Mirrored(g, d) && InRange(g, Table(g, d)) && |EntOf(d, o.sec, o.off)| == 32
    ensures FirstClus(g, EntOf(d, o.sec, o.off)) == Head(nodes[o].ch)
    ensures FileSize(EntOf(d, o.sec, o.off)) == nodes[o].size
    ensures Stops(g, Head(nodes[o].ch)) || Head(nodes[o].ch) < g.Last()
    ensures nodes[o].ch == [] <==> Head(nodes[o].ch) == 0
  {
    hide Inv, Table, FirstClus, FileSize, InRange, Mirrored, Fits, Opened, FdOk;
    FileEntry(g, d, fds, nodes, o);
    NoHead(g, d, fds, nodes, o);
  }

  /**
   * The entry tells what a descriptor open for writing has: no such descriptor is there, or it has been written back.
   */
  ghost predicate Told(g: Geometry, d: Disk, fds: seq<Fd>, nodes: Nodes, o: Owner) {
    o in nodes && o.At? && Writing(fds, o) ==> Tied(g, d, o, nodes[o])
  }

  /** The descriptors when those on a file are closed. */
  function Dropped(fds: seq<Fd>, o: Owner): (fds': seq<Fd>)
    ensures |fds'| == |fds|
  {
    seq(|fds|, i requires 0 <= i < |fds| => if OpenOn(fds[i], o) then fds[i].(used := false) else fds[i])
  }

  lemma DroppedInv(g: Geometry, d: Disk, fds: seq<Fd>, nodes: Nodes, o: Owner)
    requires Inv(g, d, fds, nodes) && o in nodes && o.At? && Told(g, d, fds, nodes, o)
    ensures Inv(g, d, Dropped(fds, o), nodes) && !Opened(Dropped(fds, o), o)
    ensures !Opened(fds, o) ==> Dropped(fds, o) == fds
  {
    hide Tied, Listed, Complete, DirsOk, ChainsOk, Shape, Mirrored, InRange, Table;
    DroppedWriting(fds, o);
  }

  lemma DroppedWriting(fds: seq<Fd>, o: Owner)
    ensures forall x :: x != o && Writing(fds, x) ==> Writing(Dropped(fds, o), x)
  {
    forall x | x != o && Writing(fds, x) ensures Writing(Dropped(fds, o), x) {
      var j :| 0 <= j < |fds| && OpenOn(fds[j], x) && fds[j].flags.write;
      assert OpenOn(Dropped(fds, o)[j], x);
    }
  }

  /** With a descriptor on an entry that is deleted, no account of the disk is in order. */
  lemma StrandedBreaks(g: Geometry, d: Disk, fds: seq<Fd>, o: Owner)
    requires o.At? && !Live(EntOf(d, o.sec, o.off))
    ensures Opened(fds, o) ==> !Sound(g, d, fds)
  {
    if Opened(fds, o) {
      forall nodes ensures !Inv(g, d, fds, nodes) {
        StrandedIn(g, d, fds, nodes, o);
      }
    }
  }

  lemma StrandedIn(g: Geometry, d: Disk, fds: seq<Fd>, nodes: Nodes, o: Owner)
    requires o.At? && !Live(EntOf(d, o.sec, o.off)) && Opened(fds, o)
    ensures !Inv(g, d, fds, nodes)
  {
    hide Complete, DirsOk, ChainsOk, Shape, Mirrored, InRange, Table, EntOf, Live;
  }

  /** An entry marked as deleted stays so when the table changes. */
  lemma MarkKept(g: Geometry, d0: Disk, d1: Disk, d: Disk, sec: nat, off: nat, e: seq<byte>)
    requires |e| == 32 && e[0] == 0xE5 && sec < |d0| && off + 32 <= SEC && d1 == EntryWritten(d0, sec, off, e)
    requires OnlyFat(g, d1, d) && !g.InFat(sec)
    ensures !Live(EntOf(d, sec, off))
  {
  }

  lemma NoHead(g: Geometry, d: Disk, fds: seq<Fd>, nodes: Nodes, o: Owner)
    requires Inv(g, d, fds, nodes) && o in nodes
    ensures nodes[o].ch == [] <==> Head(nodes[o].ch) == 0
  {
    hide EntriesOk, Complete, DirsOk, FdsOk, Shape, Mirrored, InRange;
  }

  /** The entry of a file nobody has open for writing tells its chain and size. */
  lemma FileEntry(g: Geometry, d: Disk, fds: seq<Fd>, nodes: Nodes, o: Owner)
    requires Inv(g, d, fds, nodes) && o in nodes && o.At? && !nodes[o].dir && !Writing(fds, o)
    ensures o.sec < |d| && o.off + 32 <= SEC && Fits(g, d) && Mirrored(g, d) && InRange(g, Table(g, d))
    ensures var e := d[o.sec][o.off..o.off + 32];
      FirstClus(g, e) == Head(nodes[o].ch) && FileSize(e) == nodes[o].size
    ensures Stops(g, Head(nodes[o].ch)) || Head(nodes[o].ch) < g.Last()
    ensures forall start, size, pos, flags ::
      start == Head(nodes[o].ch) && size == nodes[o].size && pos <= size ==>
        FdOk(Fd(true, flags, false, start, size, pos, o.sec, o.off), nodes)
  {
    hide Complete, DirsOk, FdsOk, Chain, InDir;
    AllInVolume(g, d, nodes);
    hide Opened, Writing;
  }

  /** The owner a name of a directory stands for; the root where there is no such name. */
  ghost function Named(g: Geometry, d: Disk, x: Owner, n: Node, want: seq<byte>): Owner {
    var secs, m := DirSecs(g, x, n.ch), DirNames(g, d, x, n);
    if want in m && m[want] < |secs| * PER_SEC then SlotOf(secs, m[want]) else Root
  }

  /** Descriptor `r` is new, on `o` (or on a directory), with these flags, and the only change. */
  ghost predicate Fresh(fds: seq<Fd>, fds': seq<Fd>, r: int, flags: Flags, isDir: bool, o: Owner) {
    var i := r - FD_BASE;
    && 0 <= i < |fds| && |fds'| == |fds| && !fds[i].used && fds' == fds[i := fds'[i]]
    && fds'[i].used && fds'[i].flags == flags && fds'[i].isDir == isDir && (!isDir ==> OpenOn(fds'[i], o))
  }

  /** `x` lists one more name, which stands for a node that was not there; `x` may have grown to make room. */
  ghost predicate NameAdded(g: Geometry, d: Disk, nodes: Nodes, d': Disk, nodes': Nodes, x: Owner, want: seq<byte>) {
    x in nodes && x in nodes' && nodes'[x].dir &&
    var m0, m, o := DirNames(g, d, x, nodes[x]), DirNames(g, d', x, nodes'[x]), Named(g, d', x, nodes'[x], want);
    && want !in m0 && want in m && m == m0[want := m[want]] && o.At?
    && o !in nodes && o in nodes' && nodes' == nodes[x := nodes'[x]][o := nodes'[o]] && nodes[x].ch <= nodes'[x].ch
  }

  /** Nothing but perhaps the number of free entries in `x` changed. */
  ghost predicate DirLonger(g: Geometry, d: Disk, nodes: Nodes, d': Disk, nodes': Nodes, x: Owner) {
    && x in nodes && x in nodes' && nodes' == nodes[x := nodes'[x]] && nodes'[x].dir && nodes[x].ch <= nodes'[x].ch
    && DirNames(g, d', x, nodes'[x]) == DirNames(g, d, x, nodes[x])
  }

  /** The names are as before and `o` is one of them; if it is a file it may have been emptied. */
  ghost predicate NameReached(g: Geometry, d: Disk, nodes: Nodes, d': Disk, nodes': Nodes, x: Owner, o: Owner,
                              emptied: bool)
  {
    && x in nodes && x in nodes' && DirNames(g, d', x, nodes'[x]) == DirNames(g, d, x, nodes[x])
    && o in nodes && o in nodes' && nodes' == nodes[o := nodes'[o]] && nodes'[o].dir == nodes[o].dir
    && if nodes[o].dir then nodes' == nodes && d' == d
       else FileBytes(g, d', nodes'[o]) == if emptied then [] else FileBytes(g, d, nodes[o])
  }

  lemma OpenSize(g: Geometry, d: Disk, fds: seq<Fd>, nodes: Nodes, i: nat, o: Owner)
    requires Inv(g, d, fds, nodes) && i < |fds| && OpenOn(fds[i], o)
    ensures o in nodes && fds[i].size == |FileBytes(g, d, nodes[o])|
  {
    hide Content, EntriesOk, Complete, DirsOk, ChainsOk, Shape;
  }

  lemma EmptyFile(g: Geometry, d: Disk)
    ensures FileBytes(g, d, NewNode(0)) == []
  {
  }

  /** A name that was found stands for a known node of that kind. */
  lemma FoundNode(g: Geometry, d: Disk, fds: seq<Fd>, nodes: Nodes, x: Owner, want: seq<byte>, o: Owner, ent: seq<byte>)
    requires Inv(g, d, fds, nodes) && x in nodes && nodes[x].dir && Usable(want) && want in DirNames(g, d, x, nodes[x])
    requires var secs, k := DirSecs(g, x, nodes[x].ch), DirNames(g, d, x, nodes[x])[want];
      k < |secs| * PER_SEC && o == SlotOf(secs, k) && ent == Ent(d, secs, k)
    ensures o in nodes && o == Named(g, d, x, nodes[x], want) && |ent| == 32 && nodes[o].dir == IsDirAttr(ent)
    ensures EntOf(d, o.sec, o.off) == ent && NameOf(ent) == want && Live(ent)
    ensures !Writing(fds, o) ==> FirstClus(g, ent) == Head(nodes[o].ch)
    ensures o.sec < |d| && o.off % 32 == 0 && o.off + 32 <= SEC
  {
    hide Names, DirSecs, DirOk, FdsOk, Mirrored, InRange, Table, EntOf, FirstClus, FileSize, Writing, IsDirAttr;
    var secs, k := DirSecs(g, x, nodes[x].ch), DirNames(g, d, x, nodes[x])[want];
    assert Has(d, secs, k, want);
    SlotEnt(d, secs, k);
    DirFacts(g, d, fds, nodes, x);
    DirSecsPlaces(g, x, nodes[x]);
    InItsDir(g, nodes, x, o.sec);
    hide ChainsOk, Shape, InDir, InNode, Ent, SlotOf, DirsOk;
  }

  /** Changing one file's node does not change what a directory's name stands for. */
  lemma SameNamed(g: Geometry, d: Disk, nodes: Nodes, d': Disk, nodes': Nodes, x: Owner, o: Owner, want: seq<byte>)
    requires x in nodes && nodes[x].dir && DirsKept(g, d, nodes, d', nodes', {}) && o in nodes && o in nodes'
    requires nodes' == nodes[o := nodes'[o]] && nodes'[o].dir == nodes[o].dir && (nodes[o].dir ==> nodes' == nodes)
    ensures x in nodes' && nodes'[x] == nodes[x] && DirNames(g, d', x, nodes'[x]) == DirNames(g, d, x, nodes[x])
    ensures Named(g, d', x, nodes'[x], want) == Named(g, d, x, nodes[x], want)
  {
  }

  lemma NewNamed(g: Geometry, d: Disk, nodes: Nodes, nodes': Nodes, x: Owner, o: Owner, want: seq<byte>)
    requires x in nodes' && o in nodes'
    requires var secs, names := DirSecs(g, x, nodes'[x].ch), DirNames(g, d, x, nodes'[x]);
      want in names && names[want] < |secs| * PER_SEC && SlotOf(secs, names[want]) == o
    ensures Named(g, d, x, nodes'[x], want) == o
  {
  }

  lemma NewIsClosed(g: Geometry, fds: seq<Fd>, d: Disk, nodes: Nodes, o: Owner)
    requires Inv(g, d, fds, nodes) && o !in nodes
    ensures forall write :: Sharable(fds, o, write)
  {
  }

  // ---- making a directory ----

  /** ".", padded with spaces */
  const DOT: seq<byte> := [0x2E, 0x20, 0x20, 0x20, 0x20, 0x20, 0x20, 0x20, 0x20, 0x20, 0x20]

  /** "..", padded with spaces */
  const DOT_DOT: seq<byte> := [0x2E, 0x2E, 0x20, 0x20, 0x20, 0x20, 0x20, 0x20, 0x20, 0x20, 0x20]

  function LinkEntry(g: Geometry, name: seq<byte>, clus: nat): (e: seq<byte>)
    requires |name| == 11 && clus < 0x1_0000_0000
    ensures |e| == 32
  {
    WithFields(g, name + [0x10] + seq(20, _ => 0), clus, 0)
  }

  /** The first 64 bytes of a new directory. */
  function LinksSector(g: Geometry, c: nat, parent: nat): (p: seq<byte>)
    requires c < 0x1_0000_0000 && parent < 0x1_0000_0000
    ensures |p| == 64
  {
    LinkEntry(g, DOT, c) + LinkEntry(g, DOT_DOT, parent)
  }

  lemma LinkEntryReads(g: Geometry, name: seq<byte>, clus: nat)
    requires |name| == 11 && ShortClus(g, clus)
    ensures LinkTo(g, LinkEntry(g, name, clus), name, clus)
  {
    hide WithFields, FirstClus, FileSize;
    var e0 := name + [0x10] + seq(20, _ => 0);
    FieldsRead(g, e0, clus, 0);
    var e := LinkEntry(g, name, clus);
    assert e[..11] == e[..12][..11] == e0[..12][..11] == name && e[11] == e[..12][11] == e0[..12][11];
  }

  /** A cluster number that an entry's fields have room for. */
  predicate ShortClus(g: Geometry, clus: nat) { clus < if g.fat32 then 0x1_0000_0000 else 0x1_0000 }

  /** Entries of those two names are links. */
  lemma LinksAreLive(g: Geometry, e: seq<byte>, name: seq<byte>, clus: nat)
    requires |e| == 32 && name in {DOT, DOT_DOT} && LinkTo(g, e, name, clus)
    ensures Live(e) && !Plain(e) && e[1] == name[1]
  {
    hide FirstClus, FileSize;
    assert forall i :: 0 <= i < 11 ==> e[i] == NameOf(e)[i];
  }

  /** Two link entries, then end markers. */
  lemma LinksOnly(d: Disk, secs: seq<nat>, p: seq<byte>)
    requires SectorsOf(d, secs) && |secs| > 0 && |p| == 64 && d[secs[0]] == Patch(seq(SEC, _ => 0), 0, p)
    requires forall i :: 0 < i < |secs| ==> d[secs[i]] == seq(SEC, _ => 0)
    requires Live(p[..32]) && !Plain(p[..32]) && Live(p[32..]) && !Plain(p[32..]) && p[1] != p[33]
    ensures DirOk(d, secs) && HoldsNothing(d, secs)
  {
    forall k | 0 <= k < |secs| * PER_SEC
      ensures Ent(d, secs, k) == (if k == 0 then p[..32] else if k == 1 then p[32..] else seq(32, _ => 0))
    {
      if k / PER_SEC == 0 {
        LinksAt(d[secs[0]], p, k);
      } else {
        BlankAt(d[secs[k / PER_SEC]], k % PER_SEC);
      }
    }
    hide Ent, Plain;
    assert Ent(d, secs, 0)[1] == p[1] && Ent(d, secs, 1)[1] == p[33];
    assert NameOf(Ent(d, secs, 0))[1] == p[1] && NameOf(Ent(d, secs, 1))[1] == p[33];
  }

  lemma BlankAt(s: Sector, j: nat)
    requires s == seq(SEC, _ => 0) && j < PER_SEC
    ensures s[j * 32..j * 32 + 32] == seq(32, _ => 0)
  {
  }

  lemma LinksAt(s: Sector, p: seq<byte>, k: nat)
    requires |p| == 64 && s == Patch(seq(SEC, _ => 0), 0, p) && k < PER_SEC
    ensures s[k * 32..k * 32 + 32] == (if k == 0 then p[..32] else if k == 1 then p[32..] else seq(32, _ => 0))
  {
  }

  lemma NoChain(g: Geometry, t: seq<nat>)
    ensures ChainOk(g, t, [])
  {
  }

  /** A claimed cluster that nobody owns yet harms nothing. */
  lemma ClaimLoose(g: Geometry, d: Disk, d': Disk, fds: seq<Fd>, nodes: Nodes, c: nat)
    requires Inv(g, d, fds, nodes) && Claimed(g, d, d', [], c)
    ensures Inv(g, d', fds, nodes)
    ensures FilesKept(g, d, nodes, d', nodes, {}) && DirsKept(g, d, nodes, d', nodes, {})
    ensures Chain(g, Table(g, d'), [c]) && forall x :: x in nodes ==> c !in nodes[x].ch
  {
    hide EntriesOk, Complete, DirsOk, FdsOk, DirNames, Content, InDir, Proper, Mirrored;
    FreeIsUnowned(g, d, nodes, c);
    LinkedChain(g, Table(g, d), [], c);
    AllInVolume(g, d, nodes);
    assert [] + [c] == [c];
    LooseFrame(g, d, d', nodes, c);
    EntriesFrame(g, d, d', fds, nodes);
    forall x | x in nodes && !nodes[x].dir ensures FileBytes(g, d', nodes[x]) == FileBytes(g, d, nodes[x]) {
      ProperSize(g, x, nodes[x]);
      ContentFrame(g, d, d', nodes[x].ch, nodes[x].size);
    }
  }

  lemma ProperSize(g: Geometry, x: Owner, n: Node)
    requires Proper(g, x, n) && !n.dir
    ensures n.size <= Capacity(g, n.ch)
  {
  }

  lemma LooseFrame(g: Geometry, d: Disk, d': Disk, nodes: Nodes, c: nat)
    requires Fits(g, d) && Claimed(g, d, d', [], c) && forall x :: x in nodes ==> c !in nodes[x].ch
    ensures forall s :: 0 <= s < g.tot && InDir(g, nodes, s) ==> d'[s] == d[s]
  {
  }

  lemma PlaceLinks(g: Geometry, d: Disk, c: nat)
    requires Fits(g, d) && 2 <= c < g.Last()
    ensures g.ClusLba(c) < |d| && ShortClus(g, c)
  {
    ClusterSectors(g, c, 0);
  }

  /** The links written into a fresh cluster make it an empty directory, entered nowhere. */
  lemma LinksWritten(g: Geometry, d0: Disk, d1: Disk, d2: Disk, fds: seq<Fd>, nodes: Nodes, c: nat, parent: nat)
    requires Inv(g, d1, fds, nodes) && Claimed(g, d0, d1, [], c) && Zeroed(g, d1, c) && ShortClus(g, c)
    requires ShortClus(g, parent)
    requires Chain(g, Table(g, d1), [c]) && forall x :: x in nodes ==> c !in nodes[x].ch
    requires g.ClusLba(c) < |d1| && d2 == d1[g.ClusLba(c) := Patch(seq(SEC, _ => 0), 0, LinksSector(g, c, parent))]
    ensures Inv(g, d2, fds, nodes) && Loose(g, d2, nodes, c) && HasLinks(g, d2, c, parent)
    ensures Table(g, d2) == Table(g, d1)
    ensures FilesKept(g, d1, nodes, d2, nodes, {}) && DirsKept(g, d1, nodes, d2, nodes, {})
  {
    hide ChainsOk, Shape, EntriesOk, Complete, DirsOk, FdsOk, InRange, Mirrored, Table, FileBytes, DirNames, Claimed,
         LinksSector, Chain, DirSecs, DirOk, HoldsNothing;
    ClaimedRange(g, d0, d1, [], c);
    ClusterSectors(g, c, 0);
    var p := LinksSector(g, c, parent);
    assert OnlyData(g, d1, d2, [c]);
    InvFits(g, d1, fds, nodes);
    DataKeepsTable(g, d1, d2, [c]);
    DataStep(g, d1, d2, fds, nodes, [c]);
    var secs, n := DirSecs(g, At(0, 0), [c]), Node(true, [c], 0);
    LinkSecs(g, c);
    LinksRead(g, c, parent);
    LinksPlaced(g, d2, c, parent);
    LinksOnly(d2, secs, p);
  }

  lemma LinksRead(g: Geometry, c: nat, parent: nat)
    requires ShortClus(g, c) && ShortClus(g, parent)
    ensures var p := LinksSector(g, c, parent);
      && LinkTo(g, p[..32], DOT, c) && LinkTo(g, p[32..], DOT_DOT, parent)
      && Live(p[..32]) && !Plain(p[..32]) && Live(p[32..]) && !Plain(p[32..]) && p[1] != p[33]
  {
    hide LinkEntry, Plain, Live, LinkTo;
    LinkEntryReads(g, DOT, c);
    LinkEntryReads(g, DOT_DOT, parent);
    var p := LinksSector(g, c, parent);
    assert p[..32] == LinkEntry(g, DOT, c) && p[32..] == LinkEntry(g, DOT_DOT, parent);
    LinksAreLive(g, p[..32], DOT, c);
    LinksAreLive(g, p[32..], DOT_DOT, parent);
    assert p[32..][1] == p[33];
  }

  /** The first sector of a new directory holds its links. */
  lemma LinksPlaced(g: Geometry, d: Disk, c: nat, parent: nat)
    requires ShortClus(g, c) && ShortClus(g, parent)
    requires FirstSector(g, d, c) == Patch(seq(SEC, _ => 0), 0, LinksSector(g, c, parent))
    ensures HasLinks(g, d, c, parent)
  {
    hide LinksSector, LinkTo;
    LinksRead(g, c, parent);
    var s, p := FirstSector(g, d, c), LinksSector(g, c, parent);
    assert s[..32] == p[..32] && s[32..64] == p[32..];
  }

  /** The sectors of a one-cluster directory. */
  lemma LinkSecs(g: Geometry, c: nat)
    requires g.Valid() && 2 <= c < g.Last()
    ensures var secs := DirSecs(g, At(0, 0), [c]);
      && |secs| == g.spc > 0 && (forall i :: 0 <= i < |secs| ==> secs[i] == g.ClusLba(c) + i && secs[i] < g.tot)
  {
    hide Geometry.ClusLba, Geometry.ClusOf;
    var secs := DirSecs(g, At(0, 0), [c]);
    assert |[c]| * g.spc == g.spc;
    forall i | 0 <= i < |secs| ensures secs[i] == g.ClusLba(c) + i && secs[i] < g.tot {
      DivModUnique(i, g.spc, 0, i);
      ClusterSectors(g, c, i);
      assert secs[i] == SecLba(g, [c], i);
    }
  }

  /** An owner's entry. */
  function OwnEnt(d: Disk, o: Owner): (e: seq<byte>)
    ensures |e| == 32
  {
    if o.At? then EntOf(d, o.sec, o.off) else seq(32, _ => 0)
  }

  ghost predicate NothingBelow(d: Disk, secs: seq<nat>, k: nat) {
    forall j :: 0 <= j < k && Live(Ent(d, secs, j)) ==> !Plain(Ent(d, secs, j))
  }

  lemma NothingStart(d: Disk, secs: seq<nat>)
    ensures NothingBelow(d, secs, 0)
  {
  }

  lemma NothingAtAll(d: Disk, secs: seq<nat>)
    requires NothingBelow(d, secs, |secs| * PER_SEC)
    ensures HoldsNothing(d, secs)
  {
  }

  lemma BusyStep(d: Disk, secs: seq<nat>, k: nat)
    requires k < |secs| * PER_SEC && NothingBelow(d, secs, k) && DirOk(d, secs)
    ensures var e := Ent(d, secs, k);
      && (e[0] == 0 ==> HoldsNothing(d, secs))
      && (e[0] == 0xE5 || e[11] == 0x0F || !Plain(e) ==> NothingBelow(d, secs, k + 1))
      && (e[0] != 0 && e[0] != 0xE5 && e[11] != 0x0F && Plain(e) ==> !HoldsNothing(d, secs))
  {
    hide Ent, Plain;
  }

  lemma DirHead(g: Geometry, o: Owner, t: seq<nat>, ch: seq<nat>)
    requires o.At? && ChainOk(g, t, ch) && (FlatRoot(g, o) <==> ch == [])
    ensures Chain(g, t, ch) && ch != [] && Head(ch) == ch[0]
  {
  }

  lemma MarkedEntry(d: Disk, d': Disk, sec: nat, off: nat, ent: seq<byte>, e: seq<byte>)
    requires sec < |d| && off % 32 == 0 && off + 32 <= SEC && |ent| == 32 && EntOf(d, sec, off) == ent
    requires e == Patch(ent, 0, [0xE5]) && d' == d[sec := Patch(d[sec], off, [0xE5])]
    ensures |e| == 32 && e[0] == 0xE5 && d' == EntryWritten(d, sec, off, e)
  {
    PokeEntry(d[sec], off, 0, [0xE5]);
  }

  /** What is left behind when an entry is gone: a chain nobody owns. */
  lemma UnlinkedFacts(g: Geometry, d: Disk, fds: seq<Fd>, nodes: Nodes, o: Owner, ch: seq<nat>, start: nat)
    requires Inv(g, d, fds, nodes - {o}) && o in nodes && ch == nodes[o].ch && start == Head(ch)
    requires ChainsOk(g, Table(g, d), nodes)
    ensures Fits(g, d) && Mirrored(g, d) && InRange(g, Table(g, d)) && ChainOk(g, Table(g, d), ch)
    ensures Stops(g, start) || start < g.Last()
    ensures forall x :: x in nodes - {o} ==> Disjoint((nodes - {o})[x].ch, ch)
  {
    hide EntriesOk, Complete, DirsOk, FdsOk, Shape, Table, Mirrored, Disjoint;
    ChainInVolume(g, Table(g, d), ch);
  }

  lemma ChainsOf(g: Geometry, d: Disk, fds: seq<Fd>, nodes: Nodes)
    requires Inv(g, d, fds, nodes)
    ensures ChainsOk(g, Table(g, d), nodes)
  {
  }

  lemma FreedChain(g: Geometry, d: Disk, d': Disk, ch: seq<nat>, start: nat)
    requires Fits(g, d) && Mirrored(g, d) && InRange(g, Table(g, d)) && ChainOk(g, Table(g, d), ch) && start == Head(ch)
    requires start < 2 ==> d' == d
    requires start >= 2 ==> OnlyFat(g, d, d') && Mirrored(g, d') && Table(g, d') == Freed(g, Table(g, d), start)
    ensures Released(g, d, d', ch)
  {
    hide Table, Mirrored, InRange;
    if ch != [] {
      FreedIsCleared(g, Table(g, d), ch);
    }
  }

  lemma NotWriting(fds: seq<Fd>, o: Owner)
    ensures Writing(fds, o) ==> Opened(fds, o)
  {
  }

  /** Freeing from a file's first cluster releases exactly its chain. */
  lemma ReleasedBy(g: Geometry, d: Disk, d': Disk, fds: seq<Fd>, nodes: Nodes, o: Owner, start: nat)
    requires Inv(g, d, fds, nodes) && o in nodes && start == Head(nodes[o].ch)
    requires start == 0 ==> d' == d
    requires start != 0 ==> OnlyFat(g, d, d') && Mirrored(g, d') && Table(g, d') == Freed(g, Table(g, d), start)
    ensures Released(g, d, d', nodes[o].ch)
  {
    hide EntriesOk, Complete, DirsOk, FdsOk, Shape, Table, Mirrored, InRange;
    var ch := nodes[o].ch;
    if ch != [] {
      ChainInUse(g, Table(g, d), ch);
      assert ch[0] in ch;
      FreedIsCleared(g, Table(g, d), ch);
    }
  }

  // ---- new entries ----

  /** A name that can be told from free entries and from a directory's own links. */
  predicate Usable(name: seq<byte>) { |name| == 11 && name[0] != 0 && name[0] != 0xE5 && !LinkName(name) }

  /** The 32 bytes of a fresh entry. */
  function NewEntry(g: Geometry, name: seq<byte>, clus: nat): (e: seq<byte>)
    requires |name| == 11 && clus < 0x1_0000_0000
    ensures |e| == 32
  {
    var attr: byte := if clus == 0 then 0x20 else 0x10;
    WithFields(g, name + [attr] + seq(20, _ => 0), clus, 0)
  }

  function NewNode(clus: nat): Node { if clus == 0 then Node(false, [], 0) else Node(true, [clus], 0) }

  lemma NewEntryReads(g: Geometry, name: seq<byte>, clus: nat)
    requires Usable(name) && clus < if g.fat32 then 0x1_0000_0000 else 0x1_0000
    ensures var e := NewEntry(g, name, clus);
      NameOf(e) == name && Live(e) && Plain(e) && (IsDirAttr(e) <==> clus != 0) && FirstClus(g, e) == clus
        && FileSize(e) == 0
  {
    var attr: byte := if clus == 0 then 0x20 else 0x10;
    var e0, e := name + [attr] + seq(20, _ => 0), NewEntry(g, name, clus);
    FieldsRead(g, e0, clus, 0);
    hide WithFields, FirstClus, FileSize;
    assert e[..12] == e0[..12] == name + [attr];
    assert e[..11] == e[..12][..11] == name;
    assert e[0] == e[..12][0] && e[11] == e[..12][11];
  }

  /** An empty directory that is not entered anywhere yet. */
  ghost predicate Loose(g: Geometry, d: Disk, nodes: Nodes, c: nat) {
    && 2 <= c < g.Last() && Chain(g, Table(g, d), [c])
    && (forall x :: x in nodes ==> c !in nodes[x].ch)
    && DirOk(d, DirSecs(g, At(0, 0), [c])) && HoldsNothing(d, DirSecs(g, At(0, 0), [c]))
  }

  /** The first sector of a cluster, where a new directory's links are. */
  function FirstSector(g: Geometry, d: Disk, c: nat): Sector {
    if g.ClusLba(c) < |d| then d[g.ClusLba(c)] else seq(SEC, _ => 0)
  }

  /** A directory's entry of a name, for a cluster. */
  predicate LinkTo(g: Geometry, e: seq<byte>, name: seq<byte>, clus: nat)
    requires |e| == 32
  {
    NameOf(e) == name && IsDirAttr(e) && !IsVolume(e) && FirstClus(g, e) == clus && FileSize(e) == 0
  }

  /** A link "." to `c` itself, a link ".." to the parent, and nothing else. */
  ghost predicate HasLinks(g: Geometry, d: Disk, c: nat, parent: nat) {
    var s := FirstSector(g, d, c);
    LinkTo(g, s[..32], DOT, c) && LinkTo(g, s[32..64], DOT_DOT, parent) && forall i :: 64 <= i < SEC ==> s[i] == 0
  }

  lemma SameNames(g: Geometry, d: Disk, nodes: Nodes, d': Disk, nodes': Nodes, x: Owner)
    requires DirsKept(g, d, nodes, d', nodes', {}) && x in nodes && nodes[x].dir
    ensures x in nodes' && DirNames(g, d', x, nodes'[x]) == DirNames(g, d, x, nodes[x])
  {
  }

  lemma PokedEntry(d: Disk, d': Disk, sec: nat, off: nat, e: seq<byte>)
    requires sec < |d| && off % 32 == 0 && off + 32 <= SEC && |e| == 32 && d' == d[sec := Patch(d[sec], off, e)]
    ensures d' == EntryWritten(d, sec, off, e) && EntOf(d', sec, off) == e
  {
    OtherEntries(d, sec, off, e);
  }

  /** Another directory's growth leaves a loose directory alone. */
  lemma LooseKept(g: Geometry, d: Disk, d': Disk, nodes: Nodes, nodes': Nodes, x: Owner, c: nat)
    requires Fits(g, d) && Fits(g, d') && Loose(g, d, nodes, c) && x in nodes && x in nodes'
    requires nodes' == nodes[x := nodes'[x]]
    requires DirGrew(g, d, d', nodes, nodes', x)
    ensures Loose(g, d', nodes', c) && FirstSector(g, d', c) == FirstSector(g, d, c)
  {
    hide DirSecs, DirOk, HoldsNothing, Table, Mirrored, FirstSector;
    if !(d' == d && nodes'[x] == nodes[x]) {
      var c2 :| Claimed(g, d, d', nodes[x].ch, c2) && nodes'[x] == nodes[x].(ch := nodes[x].ch + [c2]);
      LooseSectors(g, d, d', nodes, x, c, c2);
      assert Table(g, d)[c] != 0 && Table(g, d')[c] == Table(g, d)[c];
    }
  }

  lemma LooseSectors(g: Geometry, d: Disk, d': Disk, nodes: Nodes, x: Owner, c: nat, c2: nat)
    requires Fits(g, d) && Fits(g, d') && Loose(g, d, nodes, c) && x in nodes && Claimed(g, d, d', nodes[x].ch, c2)
    ensures DirOk(d', DirSecs(g, At(0, 0), [c])) && HoldsNothing(d', DirSecs(g, At(0, 0), [c]))
    ensures FirstSector(g, d', c) == FirstSector(g, d, c)
  {
    var secs, n := DirSecs(g, At(0, 0), [c]), Node(true, [c], 0);
    assert Table(g, d)[c] != 0;
    hide Table, DirSecs, DirOk, Chain, Mirrored;
    DirSecsPlaces(g, At(0, 0), n);
    forall i | 0 <= i < |secs| ensures d'[secs[i]] == d[secs[i]] {
      assert InNode(g, At(0, 0), n, secs[i]);
    }
    hide Claimed, InNode;
    LinkSecs(g, c);
    assert d'[secs[0]] == d[secs[0]];
    DirFrame(d, d', secs);
    forall k | 0 <= k < |secs| * PER_SEC ensures Ent(d', secs, k) == Ent(d, secs, k) {
      SameSectorEntries(d, d', secs[k / PER_SEC], k % PER_SEC * 32);
    }
  }

  /** Entering a directory's name elsewhere leaves the directory itself as empty as it was. */
  lemma LooseAfter(g: Geometry, d: Disk, fds: seq<Fd>, nodes: Nodes, x: Owner, k: nat, o: Owner, c: nat, e: seq<byte>,
                   d': Disk)
    requires Inv(g, d, fds, nodes) && x in nodes && nodes[x].dir && Loose(g, d, nodes, c) && |e| == 32
    requires FirstFree(d, DirSecs(g, x, nodes[x].ch), k) && o == SlotOf(DirSecs(g, x, nodes[x].ch), k) && o.sec < |d|
    requires d' == EntryWritten(d, o.sec, o.off, e)
    ensures HoldsNothing(d', DirSecs(g, o, [c])) && FirstSector(g, d', c) == FirstSector(g, d, c)
  {
    hide Inv, DirOk, Chain, Table, DirSecs, EntryWritten, FirstFree;
    CreateWhere(g, d, fds, nodes, x, k, o);
    InvFits(g, d, fds, nodes);
    LooseSecs(g, o, c);
    LinkSecs(g, c);
    WrittenElsewhere(d, o.sec, o.off, e);
    var secs := DirSecs(g, At(0, 0), [c]);
    ClusterSectors(g, c, 0);
    assert d'[secs[0]] == d[secs[0]];
    forall j | 0 <= j < |secs| * PER_SEC ensures Ent(d', secs, j) == Ent(d, secs, j) {
      ClusterSectors(g, c, j / PER_SEC);
      SameSectorEntries(d, d', secs[j / PER_SEC], j % PER_SEC * 32);
    }
  }

  /** Everything the creation step asks of a fresh entry. */
  lemma CreateReady(g: Geometry, d: Disk, fds: seq<Fd>, nodes: Nodes, x: Owner, k: nat, o: Owner, name: seq<byte>,
                    clus: nat)
    requires Inv(g, d, fds, nodes) && x in nodes && nodes[x].dir && Usable(name)
    requires FirstFree(d, DirSecs(g, x, nodes[x].ch), k) && o == SlotOf(DirSecs(g, x, nodes[x].ch), k)
    requires clus != 0 ==> Loose(g, d, nodes, clus)
    ensures clus < (if g.fat32 then 0x1_0000_0000 else 0x1_0000) && |name| == 11
    ensures var e, n := NewEntry(g, name, clus), NewNode(clus);
      && NameOf(e) == name && Live(e) && Plain(e) && (IsDirAttr(e) <==> n.dir)
      && FirstClus(g, e) == Head(n.ch) && (!n.dir ==> FileSize(e) == n.size)
      && Enterable(g, d, nodes, o, n)
    ensures o !in nodes && k < |DirSecs(g, x, nodes[x].ch)| * PER_SEC
  {
    hide ChainsOk, InRange, Mirrored, Complete, DirsOk, EntriesOk, Table, FdsOk, DirSecs, Shape, InDir, DirOk, EntOf,
         Ent, Live, Plain, IsDirAttr, FirstClus, FileSize, NewEntry, NameOf, HoldsNothing, Chain, InNode;
    CreateWhere(g, d, fds, nodes, x, k, o);
    LooseSecs(g, o, clus);
    NewEntryReads(g, name, clus);
  }

  lemma LooseSecs(g: Geometry, o: Owner, c: nat)
    requires o.At?
    ensures DirSecs(g, o, [c]) == DirSecs(g, At(0, 0), [c])
  {
  }

  ghost predicate NoFreeBelow(d: Disk, secs: seq<nat>, k: nat) { forall j :: 0 <= j < k ==> !Free(Ent(d, secs, j)) }

  /** Entry `k`, at that place, is the first one that may be used. */
  ghost predicate FreeAt(d: Disk, secs: seq<nat>, k: nat, lba: nat, off: nat) {
    FirstFree(d, secs, k) && At(lba, off) == SlotOf(secs, k) && off + 32 <= SEC && off % 32 == 0 && lba < |d|
  }

  /** No entry of a directory may be used. */
  ghost predicate NoSlot(g: Geometry, d: Disk, x: Owner, ch: seq<nat>) {
    NoFreeBelow(d, DirSecs(g, x, ch), |DirSecs(g, x, ch)| * PER_SEC)
  }

  /** No entry of a directory may be used, and none can be added: it is the root of FAT16, or no cluster is left. */
  ghost predicate DirFull(g: Geometry, d: Disk, x: Owner, ch: seq<nat>) {
    NoSlot(g, d, x, ch) && (FlatRoot(g, x) || Full(g, d))
  }

  /** Every descriptor is in use. */
  ghost predicate NoFd(fds: seq<Fd>) { forall j :: 0 <= j < |fds| ==> fds[j].used }

  /** At most one cluster is left. */
  ghost predicate AtMostOne(g: Geometry, d: Disk) {
    forall a, b :: 2 <= a < g.Last() && 2 <= b < g.Last() && Table(g, d)[a] == 0 && Table(g, d)[b] == 0 ==> a == b
  }

  /** No cluster is left for a new directory, or none besides it for the entry that its parent needs. */
  ghost predicate NoRoomForDir(g: Geometry, d: Disk, x: Owner, ch: seq<nat>) {
    Full(g, d) || (NoSlot(g, d, x, ch) && (FlatRoot(g, x) || AtMostOne(g, d)))
  }

  lemma NoSlotIs(g: Geometry, d: Disk, x: Owner, ch: seq<nat>)
    ensures NoSlot(g, d, x, ch) <==> NoFreeBelow(d, DirSecs(g, x, ch), |DirSecs(g, x, ch)| * PER_SEC)
  {
    hide NoFreeBelow, DirSecs;
  }

  lemma SlotFree(g: Geometry, d: Disk, x: Owner, ch: seq<nat>, k: nat, lba: nat, off: nat)
    requires FreeAt(d, DirSecs(g, x, ch), k, lba, off)
    ensures !NoSlot(g, d, x, ch)
  {
    hide DirSecs, Ent, SlotOf;
  }

  lemma FlatNoSlot(g: Geometry, d: Disk, x: Owner, ch: seq<nat>)
    requires FlatRoot(g, x) && NoFreeBelow(d, DirSecs(g, x, ch), g.rootSecs * PER_SEC)
    ensures NoSlot(g, d, x, ch)
  {
    hide NoFreeBelow;
  }

  lemma ClaimedNotFull(g: Geometry, d: Disk, d': Disk, ch: seq<nat>, c: nat)
    requires Claimed(g, d, d', ch, c)
    ensures !Full(g, d)
  {
    hide Table, Mirrored;
  }

  /** After a cluster was claimed none is left if and only if it was the only one. */
  lemma ClaimedLast(g: Geometry, d: Disk, d': Disk, c: nat)
    requires Claimed(g, d, d', [], c)
    ensures Full(g, d') <==> AtMostOne(g, d)
  {
    hide Mirrored;
    var t, t' := Table(g, d), Table(g, d');
    hide Table;
    assert t' == t[c := g.EocMark()];
    if AtMostOne(g, d) {
      forall a | 2 <= a < g.Last() ensures Table(g, d')[a] != 0 {
        assert a != c ==> Table(g, d)[a] != 0;
      }
    }
    if Full(g, d') {
      forall a | 2 <= a < g.Last() && Table(g, d)[a] == 0 ensures a == c {
        assert Table(g, d')[a] != 0;
      }
    }
  }

  /** Directories whose sectors are the same have the same free entries. */
  lemma SlotsSame(g: Geometry, d: Disk, d': Disk, fds: seq<Fd>, nodes: Nodes, x: Owner)
    requires Inv(g, d, fds, nodes) && x in nodes && nodes[x].dir && |d'| == |d|
    requires forall s :: 0 <= s < g.tot && InDir(g, nodes, s) ==> d'[s] == d[s]
    ensures NoSlot(g, d', x, nodes[x].ch) <==> NoSlot(g, d, x, nodes[x].ch)
  {
    hide EntriesOk, Complete, FdsOk, Mirrored, DirSecs, InDir, InNode, DirsOk, InRange, Table, EntOf, ChainsOk, Shape;
    DirFacts(g, d, fds, nodes, x);
    var secs := DirSecs(g, x, nodes[x].ch);
    DirSecsPlaces(g, x, nodes[x]);
    forall j | 0 <= j < |secs| * PER_SEC ensures Ent(d', secs, j) == Ent(d, secs, j) {
      InItsDir(g, nodes, x, secs[j / PER_SEC]);
      SameSectorEntries(d, d', secs[j / PER_SEC], j % PER_SEC * 32);
    }
  }

  /** Claiming a cluster and writing to it touches no directory. */
  lemma SlotsKept(g: Geometry, d: Disk, d1: Disk, d2: Disk, fds: seq<Fd>, nodes: Nodes, c: nat)
    requires Inv(g, d, fds, nodes) && Claimed(g, d, d1, [], c) && |d2| == |d1| && g.ClusLba(c) < |d1|
    requires forall s :: 0 <= s < |d1| && s != g.ClusLba(c) ==> d2[s] == d1[s]
    requires Table(g, d2) == Table(g, d1)
    ensures forall x :: x in nodes && nodes[x].dir ==> (NoSlot(g, d2, x, nodes[x].ch) <==> NoSlot(g, d, x, nodes[x].ch))
    ensures Full(g, d2) <==> Full(g, d1)
  {
    hide EntriesOk, Complete, FdsOk, Mirrored, DirSecs, DirsOk, InRange, Table, EntOf, NoSlot, Proper, Chain;
    FreeIsUnowned(g, d, nodes, c);
    ClusterSectors(g, c, 0);
    forall s | 0 <= s < g.tot && InDir(g, nodes, s) ensures d2[s] == d[s] {
      DirBehindFat(g, nodes, s);
    }
    forall x | x in nodes && nodes[x].dir ensures NoSlot(g, d2, x, nodes[x].ch) <==> NoSlot(g, d, x, nodes[x].ch) {
      SlotsSame(g, d, d2, fds, nodes, x);
    }
  }

  lemma NoFreeStart(d: Disk, secs: seq<nat>)
    ensures NoFreeBelow(d, secs, 0)
  {
  }

  /** A directory is as it was, or one claimed and zeroed cluster longer. */
  ghost predicate DirGrew(g: Geometry, d: Disk, d': Disk, nodes: Nodes, nodes': Nodes, x: Owner)
    requires x in nodes && x in nodes'
  {
    || (d' == d && nodes'[x] == nodes[x])
    || exists c :: Claimed(g, d, d', nodes[x].ch, c) && nodes'[x] == nodes[x].(ch := nodes[x].ch + [c])
  }

  lemma GrewLonger(g: Geometry, d: Disk, d': Disk, nodes: Nodes, nodes': Nodes, x: Owner)
    requires x in nodes && x in nodes' && DirGrew(g, d, d', nodes, nodes', x)
    ensures nodes[x].ch <= nodes'[x].ch
  {
  }

  /** The entries a full directory had are still not free after it grew. */
  lemma NoFreeGrown(g: Geometry, d: Disk, d': Disk, fds: seq<Fd>, nodes: Nodes, x: Owner, c: nat, n: Node)
    requires Inv(g, d, fds, nodes) && x in nodes && nodes[x].dir && !FlatRoot(g, x)
    requires Claimed(g, d, d', nodes[x].ch, c) && n == nodes[x].(ch := nodes[x].ch + [c])
    requires NoFreeBelow(d, DirSecs(g, x, nodes[x].ch), |DirSecs(g, x, nodes[x].ch)| * PER_SEC)
    ensures NoFreeBelow(d', DirSecs(g, x, n.ch), SecNo(g, |nodes[x].ch|) * PER_SEC)
  {
    hide EntriesOk, Complete, FdsOk, Mirrored, DirSecs, InDir, InNode, DirsOk, InRange, Table, Claimed, SecNo, EntOf;
    AllInVolume(g, d, nodes);
    ClaimedSectors(g, d, d', nodes, x, c);
    ClaimedRange(g, d, d', nodes[x].ch, c);
    ChainCount(g, x, nodes[x].ch);
    var more := GrownSecs(g, x, nodes[x].ch, c);
    var secs := DirSecs(g, x, nodes[x].ch);
    DirSecsPlaces(g, x, nodes[x]);
    hide ChainsOk, Shape;
    forall j | 0 <= j < |secs| * PER_SEC ensures !Free(Ent(d', secs + more, j)) {
      InItsDir(g, nodes, x, secs[j / PER_SEC]);
      SameSectorEntries(d, d', secs[j / PER_SEC], j % PER_SEC * 32);
      assert (secs + more)[j / PER_SEC] == secs[j / PER_SEC];
      assert !Free(Ent(d, secs, j));
    }
  }

  lemma ClaimedRange(g: Geometry, d: Disk, d': Disk, ch: seq<nat>, c: nat)
    requires Claimed(g, d, d', ch, c)
    ensures 2 <= c < g.Last() && |d'| == |d|
  {
  }

  lemma SameSectorEntries(d: Disk, d': Disk, s: nat, off: nat)
    requires s < |d| == |d'| && d'[s] == d[s]
    ensures EntOf(d', s, off) == EntOf(d, s, off)
  {
  }

  /** A zeroed cluster has a free entry. */
  lemma ZeroedIsFree(g: Geometry, d: Disk, x: Owner, ch: seq<nat>, c: nat)
    requires g.Valid() && !FlatRoot(g, x) && |ch| > 0 && ch[|ch| - 1] == c && InVolume(g, ch) && Zeroed(g, d, c)
    requires |d| == g.tot
    ensures !NoFreeBelow(d, DirSecs(g, x, ch), SecNo(g, |ch|) * PER_SEC)
  {
    var q: nat := |ch| - 1;
    SecNoNext(g, q);
    ChainSec(g, x, ch, q, 0);
    var secs := DirSecs(g, x, ch);
    EntryInSector(d, secs, SecNo(g, q), 0);
    hide SecNo, DirSecs, Ent;
    var lba := secs[SecNo(g, q)];
    assert lba == g.ClusLba(c) && d[lba] == seq(SEC, _ => 0);
    assert Ent(d, secs, SecNo(g, q) * PER_SEC + 0)[0] == d[lba][0];
    assert SecNo(g, q) * PER_SEC + 0 < SecNo(g, |ch|) * PER_SEC;
  }

  /** The outcome of a scan: found at that place, or not there. */
  ghost predicate Hit(d: Disk, secs: seq<nat>, want: seq<byte>, found: bool, lba: nat, off: nat) {
    match Lookup(d, secs, want, 0)
    case None => !found
    case Some(k) => found && k < |secs| * PER_SEC && At(lba, off) == SlotOf(secs, k) && off + 32 <= SEC && lba < |d|
                    && Ent(d, secs, k) == d[lba][off..off + 32]
  }

  /** Sectors before cluster `q` of a chain. */
  function SecNo(g: Geometry, q: nat): nat { q * g.spc }

  lemma SecNoFirst(g: Geometry)
    ensures SecNo(g, 0) == 0
  {
  }

  lemma SecNoNext(g: Geometry, q: nat)
    ensures SecNo(g, q + 1) == SecNo(g, q) + g.spc
  {
    assert (q + 1) * g.spc == q * g.spc + g.spc;
  }

  lemma FlatCount(g: Geometry, x: Owner, ch: seq<nat>)
    requires FlatRoot(g, x)
    ensures |DirSecs(g, x, ch)| == g.rootSecs
  {
  }

  lemma ChainCount(g: Geometry, x: Owner, ch: seq<nat>)
    requires !FlatRoot(g, x)
    ensures |DirSecs(g, x, ch)| == SecNo(g, |ch|)
  {
  }

  lemma IsChain(g: Geometry, t: seq<nat>, ch: seq<nat>)
    requires Chain(g, t, ch)
    ensures ChainOk(g, t, ch)
  {
  }

  lemma InvFits(g: Geometry, d: Disk, fds: seq<Fd>, nodes: Nodes)
    requires Inv(g, d, fds, nodes)
    ensures Fits(g, d) && Mirrored(g, d)
  {
  }

  lemma HasSectors(g: Geometry, d: Disk, fds: seq<Fd>, nodes: Nodes)
    requires Inv(g, d, fds, nodes)
    ensures g.spc > 0
  {
  }

  /** Where a write of `w` bytes at `pos` goes. */
  lemma SectorPlan(g: Geometry, d: Disk, ch: seq<nat>, pos: nat, s: nat, off: nat, w: nat)
    requires Fits(g, d) && InVolume(g, ch) && ClusIdx(g, pos) < |ch|
    requires s == InClus(g, pos) / SEC && off == InClus(g, pos) % SEC && 0 < w <= SEC - off
    ensures off == pos % SEC && g.ClusLba(ch[ClusIdx(g, pos)]) + s == SecLba(g, ch, pos / SEC) < |d|
    ensures pos < Capacity(g, ch) && pos + w <= Capacity(g, ch)
  {
    hide InVolume, Capacity, ClusStart, SecLba, ClusIdx, InClus, Geometry.ClusLba;
    ReadCluster(g, pos);
    ReadSector(g, ch, pos, ClusIdx(g, pos), s, off);
    NextPosition(g, pos, w);
    ClusterWithin(g, ch, ClusIdx(g, pos));
  }

  /** The first cluster by which the driver names a directory; 0 for the flat root of FAT16. */
  predicate Designates(g: Geometry, x: Owner, n: Node, dirClus: nat) {
    if FlatRoot(g, x) then dirClus == 0
    else n.ch != [] && (dirClus == n.ch[0] || (dirClus == 0 && x.Root? && n.ch[0] == g.rootClus))
  }

  lemma DesignatesShort(g: Geometry, d: Disk, fds: seq<Fd>, nodes: Nodes, x: Owner, dirClus: nat)
    requires Inv(g, d, fds, nodes) && x in nodes && Designates(g, x, nodes[x], dirClus)
    ensures ShortClus(g, dirClus)
  {
    hide EntriesOk, Complete, DirsOk, FdsOk, Mirrored, InRange, Table, Shape;
    AllInVolume(g, d, nodes);
    if dirClus > 0 {
      assert 2 <= nodes[x].ch[0] < g.Last();
      ClusterNumberFits(g, d, dirClus);
    }
  }

  /** What is known of a directory's sectors. */
  lemma DirFacts(g: Geometry, d: Disk, fds: seq<Fd>, nodes: Nodes, x: Owner)
    requires Inv(g, d, fds, nodes) && x in nodes && nodes[x].dir
    ensures Fits(g, d) && Mirrored(g, d) && g.Valid() && |d| == g.tot && DirOk(d, DirSecs(g, x, nodes[x].ch))
    ensures ChainOk(g, Table(g, d), nodes[x].ch) && InVolume(g, nodes[x].ch) && Distinct(nodes[x].ch)
    ensures FlatRoot(g, x) <==> nodes[x].ch == []
    ensures nodes[x].ch != [] ==> nodes[x].ch[0] >= 2
  {
    hide EntriesOk, Complete, FdsOk, DirSecs, InDir;
    AllInVolume(g, d, nodes);
  }

  lemma EntryInSector(d: Disk, secs: seq<nat>, s: nat, j: nat)
    requires s < |secs| && secs[s] < |d| && j < PER_SEC
    ensures Ent(d, secs, s * PER_SEC + j) == d[secs[s]][j * 32..j * 32 + 32]
  {
  }

  lemma FlatSec(g: Geometry, x: Owner, ch: seq<nat>, s: nat)
    requires g.Valid() && FlatRoot(g, x) && s < g.rootSecs
    ensures s < |DirSecs(g, x, ch)| && DirSecs(g, x, ch)[s] == g.rootStart + s < g.tot
  {
  }

  lemma ChainSec(g: Geometry, x: Owner, ch: seq<nat>, q: nat, s: nat)
    requires g.Valid() && !FlatRoot(g, x) && InVolume(g, ch) && q < |ch| && s < g.spc
    ensures SecNo(g, q) + s < |DirSecs(g, x, ch)| && DirSecs(g, x, ch)[SecNo(g, q) + s] == g.ClusLba(ch[q]) + s < g.tot
  {
    hide Geometry.ClusLba;
    MulMono(q + 1, |ch|, g.spc);
    assert (q + 1) * g.spc == q * g.spc + g.spc;
    DivModUnique(q * g.spc + s, g.spc, q, s);
    ClusterSectors(g, ch[q], s);
  }

  lemma Landed(d: Disk, secs: seq<nat>, want: seq<byte>, s: nat, off: nat)
    requires s < |secs| && secs[s] < |d| && off % 32 == 0 && off + 32 <= SEC
    ensures var k := s * PER_SEC + off / 32;
      k < |secs| * PER_SEC && SlotOf(secs, k) == At(secs[s], off) && Ent(d, secs, k) == d[secs[s]][off..off + 32]
  {
    EntryInSector(d, secs, s, off / 32);
  }

  lemma LookupStep(d: Disk, secs: seq<nat>, want: seq<byte>, k: nat)
    requires k < |secs| * PER_SEC
    ensures var e := Ent(d, secs, k);
      Lookup(d, secs, want, k) ==
        if e[0] == 0 then None
        else if e[0] != 0xE5 && e[11] != 0x0F && e[..11] == want then Some(k)
        else Lookup(d, secs, want, k + 1)
  {
  }

  lemma LookupEnd(d: Disk, secs: seq<nat>, want: seq<byte>)
    ensures Lookup(d, secs, want, |secs| * PER_SEC) == None
  {
  }

  lemma FullStays(g: Geometry, d: Disk, d': Disk)
    requires Table(g, d') == Table(g, d)
    ensures Full(g, d) ==> Full(g, d')
  {
  }

  /**
   * What writing through descriptor `i` may have changed so far: its file, of which `done` bytes were written at `p0`.
   */
  ghost predicate Written(g: Geometry, d0: Disk, fds0: seq<Fd>, nodes0: Nodes, d: Disk, fds: seq<Fd>, nodes: Nodes,
                          i: nat, o: Owner, p0: nat, done: seq<byte>)
    requires i < |fds0| && o in nodes0
  {
    && o in nodes && nodes == nodes0[o := nodes[o]] && !nodes[o].dir
    && i < |fds| && fds == fds0[i := fds[i]]
    && fds[i] == fds0[i].(pos := p0 + |done|, start := Head(nodes[o].ch), size := nodes[o].size)
    && p0 <= nodes0[o].size
    && FileBytes(g, d, nodes[o]) == Overwrite(FileBytes(g, d0, nodes0[o]), p0, done)
    && FilesKept(g, d0, nodes0, d, nodes, {o}) && DirsKept(g, d0, nodes0, d, nodes, {})
  }

  lemma WrittenNothing(g: Geometry, d: Disk, fds: seq<Fd>, nodes: Nodes, i: nat, o: Owner)
    requires Inv(g, d, fds, nodes) && i < |fds| && OpenOn(fds[i], o) && o in nodes
    ensures Written(g, d, fds, nodes, d, fds, nodes, i, o, fds[i].pos, [])
  {
    hide Inv, Table, Content, Capacity, ChainOk, Fits, Mirrored;
    WriterFacts(g, d, fds, nodes, i, o);
    KeptSelf(g, d, nodes, {o}, {});
    assert nodes == nodes[o := nodes[o]] && fds == fds[i := fds[i]];
    var s := FileBytes(g, d, nodes[o]);
    assert Overwrite(s, fds[i].pos, []) == s;
  }

  /** Growing the chain keeps what was written. */
  lemma WrittenGrown(g: Geometry, d0: Disk, fds0: seq<Fd>, nodes0: Nodes, d1: Disk, fds1: seq<Fd>, nodes1: Nodes,
                     d: Disk, fds: seq<Fd>, nodes: Nodes, i: nat, o: Owner, p0: nat, done: seq<byte>, c: nat)
    requires i < |fds0| && o in nodes0 && Written(g, d0, fds0, nodes0, d1, fds1, nodes1, i, o, p0, done)
    requires nodes == nodes1[o := nodes1[o].(ch := nodes1[o].ch + [c])]
    requires fds == fds1[i := fds1[i].(start := (nodes1[o].ch + [c])[0])]
    requires FilesKept(g, d1, nodes1, d, nodes, {}) && DirsKept(g, d1, nodes1, d, nodes, {})
    ensures Written(g, d0, fds0, nodes0, d, fds, nodes, i, o, p0, done)
  {
    KeptAt(g, d1, nodes1, d, nodes, o);
    hide FileBytes, Overwrite;
    KeptWeaken(g, d1, nodes1, d, nodes, {}, {}, {o}, {});
    KeptOn(g, d0, nodes0, d1, nodes1, d, nodes, {o}, {});
  }

  /** Writing one sector's worth of bytes adds them to what was written. */
  lemma WrittenMore(g: Geometry, d0: Disk, fds0: seq<Fd>, nodes0: Nodes, d1: Disk, fds1: seq<Fd>, nodes1: Nodes,
                    d: Disk, fds: seq<Fd>, nodes: Nodes, i: nat, o: Owner, p0: nat, done: seq<byte>, more: seq<byte>)
    requires i < |fds0| && o in nodes0 && Written(g, d0, fds0, nodes0, d1, fds1, nodes1, i, o, p0, done)
    requires nodes == nodes1[o := nodes1[o].(size := Max(nodes1[o].size, p0 + |done| + |more|))]
    requires fds == fds1[i := fds1[i].(pos := p0 + |done| + |more|, size := nodes[o].size)]
    requires p0 + |done| <= nodes1[o].size
    requires FileBytes(g, d, nodes[o]) == Overwrite(FileBytes(g, d1, nodes1[o]), p0 + |done|, more)
    requires FilesKept(g, d1, nodes1, d, nodes, {o}) && DirsKept(g, d1, nodes1, d, nodes, {})
    ensures Written(g, d0, fds0, nodes0, d, fds, nodes, i, o, p0, done + more)
  {
    OverwriteMore(FileBytes(g, d0, nodes0[o]), p0, done, more);
    hide FileBytes, Overwrite;
    KeptOn(g, d0, nodes0, d1, nodes1, d, nodes, {o}, {});
  }

  lemma WrittenFd(g: Geometry, d0: Disk, fds0: seq<Fd>, nodes0: Nodes, d: Disk, fds: seq<Fd>, nodes: Nodes,
                  i: nat, o: Owner, p0: nat, done: seq<byte>)
    requires i < |fds0| && o in nodes0 && Written(g, d0, fds0, nodes0, d, fds, nodes, i, o, p0, done)
    ensures o in nodes && i < |fds| && fds[i].pos == p0 + |done| && fds[i].flags == fds0[i].flags
    ensures OpenOn(fds0[i], o) ==> OpenOn(fds[i], o)
  {
  }

  /** Two stretches of writing make one. */
  lemma WrittenThen(g: Geometry, d0: Disk, fds0: seq<Fd>, nodes0: Nodes, d1: Disk, fds1: seq<Fd>, nodes1: Nodes,
                    d: Disk, fds: seq<Fd>, nodes: Nodes, i: nat, o: Owner, p0: nat, done: seq<byte>, more: seq<byte>)
    requires i < |fds0| && o in nodes0 && Written(g, d0, fds0, nodes0, d1, fds1, nodes1, i, o, p0, done)
    requires Written(g, d1, fds1, nodes1, d, fds, nodes, i, o, p0 + |done|, more)
    ensures Written(g, d0, fds0, nodes0, d, fds, nodes, i, o, p0, done + more)
  {
    OverwriteMore(FileBytes(g, d0, nodes0[o]), p0, done, more);
    hide FileBytes, Overwrite;
    KeptOn(g, d0, nodes0, d1, nodes1, d, nodes, {o}, {});
  }

  /** Writing the entry back changes nothing a user sees. */
  lemma WrittenBack(g: Geometry, d0: Disk, fds0: seq<Fd>, nodes0: Nodes, d1: Disk, d: Disk, fds: seq<Fd>, nodes: Nodes,
                    i: nat, o: Owner, p0: nat, done: seq<byte>)
    requires i < |fds0| && o in nodes0 && Written(g, d0, fds0, nodes0, d1, fds, nodes, i, o, p0, done)
    requires FilesKept(g, d1, nodes, d, nodes, {}) && DirsKept(g, d1, nodes, d, nodes, {})
    ensures Written(g, d0, fds0, nodes0, d, fds, nodes, i, o, p0, done)
  {
    KeptAt(g, d1, nodes, d, nodes, o);
    hide FileBytes, Overwrite;
    KeptWeaken(g, d1, nodes, d, nodes, {}, {}, {o}, {});
    KeptOn(g, d0, nodes0, d1, nodes, d, nodes, {o}, {});
  }

  /** A file without clusters is at its start. */
  /** Positions up to `end` fit 32 bits: it does, or the volume has no room for a file that long. */
  predicate NoWrap(g: Geometry, end: nat) {
    end < 0x1_0000_0000 || (g.Last() >= 2 && (g.Last() - 2) * (g.spc * SEC) < 0x1_0000_0000)
  }

  lemma BelowWrap(g: Geometry, ch: seq<nat>, x: nat, end: nat)
    requires InVolume(g, ch) && Distinct(ch) && x <= Capacity(g, ch) && x <= end && NoWrap(g, end)
    ensures x < 0x1_0000_0000
  {
    hide Geometry.Last;
    if end >= 0x1_0000_0000 {
      Pigeons(ch, g.Last());
      MulMono(|ch|, g.Last() - 2, g.spc * SEC);
    }
  }

  /** There are no more distinct clusters than clusters. */
  lemma {:induction false} Pigeons(ch: seq<nat>, n: nat)
    requires n >= 2 && Distinct(ch) && forall i :: 0 <= i < |ch| ==> 2 <= ch[i] < n
    ensures |ch| <= n - 2
    decreases n
  {
    if n - 1 in ch {
      var i :| 0 <= i < |ch| && ch[i] == n - 1;
      Pigeons(ch[..i] + ch[i + 1..], n - 1);
    } else if ch != [] {
      assert 2 <= ch[0] < n;
      Pigeons(ch, n - 1);
    }
  }

  lemma EmptyAtStart(g: Geometry, ch: seq<nat>, pos: nat)
    requires g.spc > 0 && pos <= Capacity(g, ch)
    ensures ch == [] ==> ClusIdx(g, pos) == 0
  {
  }

  /** What a descriptor open for writing knows. */
  lemma WriterFacts(g: Geometry, d: Disk, fds: seq<Fd>, nodes: Nodes, i: nat, o: Owner)
    requires Inv(g, d, fds, nodes) && i < |fds| && OpenOn(fds[i], o)
    ensures Fits(g, d) && Mirrored(g, d) && o in nodes && !nodes[o].dir && fds[i].used && !fds[i].isDir
    ensures o == At(fds[i].dirSec, fds[i].dirOff)
    ensures ChainOk(g, Table(g, d), nodes[o].ch) && fds[i].start == Head(nodes[o].ch)
    ensures nodes[o].ch == [] <==> fds[i].start == 0
    ensures nodes[o].ch != [] ==> nodes[o].ch[0] == fds[i].start && nodes[o].ch[|nodes[o].ch| - 1] >= 2
    ensures fds[i].pos <= fds[i].size == nodes[o].size <= Capacity(g, nodes[o].ch) && nodes[o].size < 0x1_0000_0000
  {
    hide EntriesOk, Complete, DirsOk;
    OpenFileFacts(g, d, fds, nodes, i, o);
  }

  lemma KeptAt(g: Geometry, d: Disk, n: Nodes, d1: Disk, n1: Nodes, o: Owner)
    requires FilesKept(g, d, n, d1, n1, {}) && o in n && o in n1 && !n[o].dir
    ensures FileBytes(g, d1, n1[o]) == FileBytes(g, d, n[o])
  {
    hide FileBytes;
  }

  /** The link behind a chain's cluster. */
  lemma ChainNext(g: Geometry, t: seq<nat>, ch: seq<nat>, q: nat)
    requires Chain(g, t, ch) && q < |ch|
    ensures 2 <= ch[q] < |t| && !g.IsEoc(ch[q])
    ensures q + 1 < |ch| ==> t[ch[q]] == ch[q + 1] && 2 <= ch[q + 1] < |t| && !g.IsEoc(ch[q + 1])
    ensures q + 1 == |ch| ==> g.IsEoc(t[ch[q]])
  {
  }

  /** The end of a cluster, inside the file, is the start of the next one. */
  lemma NextCluster(g: Geometry, ch: seq<nat>, pos: nat, q: nat)
    requires g.spc > 0 && pos == ClusStart(g, q + 1) && pos < Capacity(g, ch)
    ensures ClusIdx(g, pos) == q + 1 && q + 1 < |ch|
  {
    DivModUnique(pos, g.spc * SEC, q + 1, 0);
    PositionWithin(g, ch, pos);
  }

  /** The sector the driver addresses is the chain's sector at that position. */
  lemma ReadSector(g: Geometry, ch: seq<nat>, pos: nat, q: nat, s: nat, off: nat)
    requires g.Valid() && InVolume(g, ch) && q < |ch| && s < g.spc && off < SEC
    requires pos == ClusStart(g, q) + s * SEC + off
    ensures g.ClusLba(ch[q]) + s == SecLba(g, ch, pos / SEC) && SecLba(g, ch, pos / SEC) < g.tot && pos % SEC == off
  {
    hide Geometry.ClusLba, Geometry.Valid, InVolume;
    SectorAddress(g.spc, q, s, off);
    VolumeCluster(g, ch, q);
    ClusterSectors(g, ch[q], s);
  }

  lemma SectorAddress(spc: nat, q: nat, s: nat, off: nat)
    requires s < spc && off < SEC
    ensures var p := q * (spc * SEC) + s * SEC + off;
      p / SEC == q * spc + s && p % SEC == off && p / SEC / spc == q && p / SEC % spc == s
  {
    var n := q * spc + s;
    assert q * (spc * SEC) + s * SEC == n * SEC;
    DivModUnique(n * SEC + off, SEC, n, off);
    DivModUnique(n, spc, q, s);
  }

  lemma VolumeCluster(g: Geometry, ch: seq<nat>, q: nat)
    requires InVolume(g, ch) && q < |ch|
    ensures 2 <= ch[q] < g.Last()
  {
  }

  /** Bytes inside one sector are the file's bytes at that position. */
  lemma ReadSlice(g: Geometry, d: Disk, ch: seq<nat>, size: nat, pos: nat, w: nat)
    requires pos + w <= size && pos % SEC + w <= SEC && SecLba(g, ch, pos / SEC) < |d|
    ensures Content(g, d, ch, size)[pos..pos + w] == d[SecLba(g, ch, pos / SEC)][pos % SEC..pos % SEC + w]
  {
    hide SecLba;
    var bytes, sector := Content(g, d, ch, size)[pos..pos + w], d[SecLba(g, ch, pos / SEC)][pos % SEC..pos % SEC + w];
    forall k | 0 <= k < w ensures bytes[k] == sector[k] {
      DivModUnique(pos + k, SEC, pos / SEC, pos % SEC + k);
    }
  }

  lemma ReadPart(g: Geometry, d: Disk, ch: seq<nat>, size: nat, p0: nat, part: seq<byte>, w: nat)
    requires var pos := p0 + |part|;
      pos + w <= size && pos % SEC + w <= SEC && SecLba(g, ch, pos / SEC) < |d|
        && part == Content(g, d, ch, size)[p0..pos]
    ensures var pos := p0 + |part|;
      part + d[SecLba(g, ch, pos / SEC)][pos % SEC..pos % SEC + w] == Content(g, d, ch, size)[p0..pos + w]
  {
    hide SecLba, Content;
    var pos := p0 + |part|;
    ReadSlice(g, d, ch, size, pos, w);
    SliceAppend(Content(g, d, ch, size), p0, pos, pos + w);
  }

  /** Where an open file's entry lies, and that its fields fit. */
  lemma OpenFilePlace(g: Geometry, d: Disk, fds: seq<Fd>, nodes: Nodes, i: nat, o: Owner)
    requires Inv(g, d, fds, nodes) && i < |fds| && OpenOn(fds[i], o)
    ensures o in nodes && !nodes[o].dir && |d| == g.tot && 0 < o.sec < g.tot && o.off % 32 == 0 && o.off + 32 <= SEC
    ensures fds[i].start == Head(nodes[o].ch) && fds[i].size == nodes[o].size < 0x1_0000_0000
    ensures fds[i].start < if g.fat32 then 0x1_0000_0000 else 0x1_0000
  {
    hide EntriesOk, Complete, DirsOk, Mirrored, InRange, InDir;
    OpenFileFacts(g, d, fds, nodes, i, o);
    DirBehindFat(g, nodes, o.sec);
    HeadFits(g, nodes[o].ch);
    hide Shape, ChainsOk, FdsOk, ChainOk, InVolume, Distinct, Capacity;
  }

  lemma HeadFits(g: Geometry, ch: seq<nat>)
    requires g.Valid() && InVolume(g, ch)
    ensures Head(ch) < if g.fat32 then 0x1_0000_0000 else 0x1_0000
  {
  }
}
