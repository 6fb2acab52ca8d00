/** Mounting: the boot sector, and the volumes the repository's own formatter makes. */
module FatMount {
  import opened Wrappers
  import opened Bytes
  import opened FatTable
  import opened FatChain
  import opened FatFile
  import opened FatDir
  import opened FatState
  import opened FatFormat
  import opened FatDriver
  import opened FatPath

  // ---- the boot sector ----

  /**
   * The layout a boot sector describes, if it is one. On FAT32 there is no flat root directory; its place is that of
   * the data region.
   */
  function BootGeometry(b: Sector): Option<Geometry> {
    if b[510] != 0x55 || b[511] != 0xAA then None
    else if Le16(b, 11) != SEC || b[13] == 0 then None
    else
      var fat32 := Le16(b, 22) == 0;
      var fatsz := if fat32 then Le32(b, 36) else Le16(b, 22);
      var rootSecs := if fat32 then 0 else (Le16(b, 17) * 32 + SEC - 1) / SEC;
      var rootClus := if fat32 && Le32(b, 44) == 0 then 2 else Le32(b, 44);
      var tot := if Le16(b, 19) != 0 then Le16(b, 19) else Le32(b, 32);
      var rootStart := Le16(b, 14) + b[16] * fatsz;
      Some(Geometry(fat32, b[16], fatsz, Le16(b, 14), rootStart, rootSecs, rootStart + rootSecs, b[13], rootClus, tot))
  }

  /** Mounts a disk whose boot sector describes a layout under which the invariant holds; nothing is open. */
  method Mount(image: Disk, slots: nat, ghost owners: Nodes) returns (v: Option<Volume>)
    requires image != []
    requires forall g :: BootGeometry(image[0]) == Some(g) ==> Inv(g, image, seq(slots, _ => CLOSED), owners)
    ensures v.None? <==> BootGeometry(image[0]).None?
    ensures v.Some? ==>
      && fresh(v.value) && v.value.Valid() && v.value.disk == image && v.value.nodes == owners
      && Some(v.value.g) == BootGeometry(image[0])
      && v.value.fdt[..] == seq(slots, _ => CLOSED)
  {
    hide Inv;
    var g := BootGeometry(image[0]);
    if g.None? {
      return None;
    }
    var w := new Volume(g.value, image, slots, owners);
    v := Some(w);
  }

  // ---- the formatter ----

  const SPC: nat := 4
  const RESERVED: nat := 1
  const FATS: nat := 2
  const ROOT_ENTS: nat := 512
  const MIB: nat := 2048

  /** How many sectors the formatter gives a table, found by trying: a table needs room for the clusters it leaves. */
  method TableSectors(mb: nat) returns (fatsz: nat)
    requires mb > 0
    ensures fatsz == 2 * mb
  {
    var tot := mb * MIB;
    var rootSecs := (ROOT_ENTS * 32 + SEC - 1) / SEC;
    fatsz := 1;
    while true
      invariant fatsz == 1 || fatsz == 2 * mb
      decreases 2 * mb - fatsz
    {
      var data: int := tot - RESERVED - FATS * fatsz - rootSecs;
      var clusters := data / SPC;
      var need := (clusters * 2 + SEC - 1) / SEC;
      if need <= fatsz {
        break;
      }
      fatsz := need;
    }
  }

  /** The layout of a volume of so many MiB. */
  function MadeGeometry(mb: nat): Geometry {
    Geometry(false, FATS, 2 * mb, RESERVED, RESERVED + 4 * mb, 32, RESERVED + 4 * mb + 32, SPC, 0, mb * MIB)
  }

  /** The formatter's boot sector, as far as mounting reads it. */
  function BootByte(mb: nat, i: nat): byte
    requires 0 < mb < 0x8000
  {
    var tot := mb * MIB;
    var tot16 := if tot < 0x1_0000 then tot else 0;
    var tot32 := if tot < 0x1_0000 then 0 else tot;
    if i == 11 then SEC % 0x100
    else if i == 12 then SEC / 0x100
    else if i == 13 then SPC
    else if i == 14 then RESERVED
    else if i == 16 then FATS
    else if i == 17 then ROOT_ENTS % 0x100
    else if i == 18 then ROOT_ENTS / 0x100
    else if i == 19 then Put16(tot16)[0]
    else if i == 20 then Put16(tot16)[1]
    else if i == 22 then Put16(2 * mb)[0]
    else if i == 23 then Put16(2 * mb)[1]
    else if i == 32 then Put32(tot32)[0]
    else if i == 33 then Put32(tot32)[1]
    else if i == 34 then Put32(tot32)[2]
    else if i == 35 then Put32(tot32)[3]
    else if i == 510 then 0x55
    else if i == 511 then 0xAA
    else 0
  }

  function BootSector(mb: nat): (b: Sector)
    requires 0 < mb < 0x8000
  {
    seq(SEC, i requires 0 <= i < SEC => BootByte(mb, i))
  }

  lemma MadeFields(mb: nat)
    requires 0 < mb < 0x8000
    ensures var b := BootSector(mb);
      && b[510] == 0x55 && b[511] == 0xAA && b[13] == SPC && b[16] == FATS
      && Le16(b, 11) == SEC && Le16(b, 14) == RESERVED && Le16(b, 17) == ROOT_ENTS
  {
  }

  lemma MadeSizes(mb: nat)
    requires 0 < mb < 0x8000
    ensures var b := BootSector(mb);
      && Le16(b, 22) == 2 * mb && Le32(b, 44) == 0
      && (if Le16(b, 19) != 0 then Le16(b, 19) else Le32(b, 32)) == mb * MIB
  {
    hide Put16, Put32, Le16, Le32;
    var b, tot := BootSector(mb), mb * MIB;
    Reads16(b, 19, if tot < 0x1_0000 then tot else 0);
    Reads16(b, 22, 2 * mb);
    Reads32(b, 32, if tot < 0x1_0000 then 0 else tot);
    ZeroReads(b, 44);
  }

  lemma Reads16(b: Sector, o: nat, v: nat)
    requires o + 2 <= SEC && v < 0x1_0000 && b[o] == Put16(v)[0] && b[o + 1] == Put16(v)[1]
    ensures Le16(b, o) == v
  {
    hide Put16;
    assert Le16(Put16(v), 0) == v;
  }

  lemma Reads32(b: Sector, o: nat, v: nat)
    requires o + 4 <= SEC && v < 0x1_0000_0000
    requires b[o] == Put32(v)[0] && b[o + 1] == Put32(v)[1] && b[o + 2] == Put32(v)[2] && b[o + 3] == Put32(v)[3]
    ensures Le32(b, o) == v
  {
    hide Put32;
    assert Le32(Put32(v), 0) == v;
  }

  lemma ZeroReads(b: Sector, o: nat)
    requires o + 4 <= SEC && b[o] == b[o + 1] == b[o + 2] == b[o + 3] == 0
    ensures Le32(b, o) == 0
  {
  }

  /**
   * Mounting reads the formatter's layout back. It is sound, with an entry below the end marks for every cluster, if
   * and only if the volume has at most 128 MiB; the formatter does not check that.
   */
  lemma MadeMounts(mb: nat)
    requires 0 < mb < 0x8000
    ensures BootGeometry(BootSector(mb)) == Some(MadeGeometry(mb))
    ensures MadeGeometry(mb).Valid() <==> mb <= 128
  {
    hide BootSector, Le16, Le32;
    MadeFields(mb);
    MadeSizes(mb);
    MadeClusters(mb);
  }

  lemma MadeClusters(mb: nat)
    requires mb > 0
    ensures MadeGeometry(mb).Last() == 511 * mb - 7
  {
    var n := mb * MIB - (RESERVED + 4 * mb + 32);
    assert n == 4 * (511 * mb - 9) + 3;
  }

  // ---- the volume it makes ----

  /** "HELLO   TXT" */
  const HELLO: seq<byte> := [0x48, 0x45, 0x4C, 0x4C, 0x4F, 0x20, 0x20, 0x20, 0x54, 0x58, 0x54]

  /** "hello from FAT volume on zerOS" and a newline. */
  const GREETING: seq<byte> := [
    0x68, 0x65, 0x6C, 0x6C, 0x6F, 0x20, 0x66, 0x72, 0x6F, 0x6D, 0x20, 0x46,
    0x41, 0x54, 0x20, 0x76, 0x6F, 0x6C, 0x75, 0x6D, 0x65, 0x20, 0x6F, 0x6E,
    0x20, 0x7A, 0x65, 0x72, 0x4F, 0x53, 0x0A
  ]

  function Zeros(): Sector { seq(SEC, _ => 0) }

  /** The first sector of each copy of the table: the media byte, and end marks for entries 1 and 2. */
  function TableHead(): Sector { Patch(Zeros(), 0, [0xF8, 0xFF, 0xFF, 0xFF, 0xFF, 0xFF]) }

  /** The first sector of the root directory: one file of one cluster. */
  function RootHead(): Sector { Patch(Zeros(), 0, HELLO + [0x20] + seq(14, _ => 0) + Put16(2) + Put32(|GREETING|)) }

  /** A disk as the formatter writes it. */
  function MadeImage(mb: nat): (d: Disk)
    requires 0 < mb < 0x8000
    ensures |d| == mb * MIB
  {
    seq(mb * MIB, i requires 0 <= i < mb * MIB => MadeSector(mb, i))
  }

  function MadeSector(mb: nat, i: nat): Sector
    requires 0 < mb < 0x8000
  {
    var g := MadeGeometry(mb);
    if i == 0 then BootSector(mb)
    else if i == g.fatStart || i == g.fatStart + g.fatsz then TableHead()
    else if i == g.rootStart then RootHead()
    else if i == g.dataStart then Patch(Zeros(), 0, GREETING)
    else Zeros()
  }

  function MadeNodes(mb: nat): Nodes {
    map[Root := Node(true, [], 0), At(MadeGeometry(mb).rootStart, 0) := Node(false, [2], |GREETING|)]
  }

  lemma MadeEntry(mb: nat, copy: nat, c: nat)
    requires 0 < mb <= 128 && copy < FATS && c < MadeGeometry(mb).Last()
    ensures EntryAt(MadeGeometry(mb), MadeImage(mb), copy, c) == if c == 0 then 0xFFF8 else if c <= 2 then 0xFFFF else 0
  {
    hide BootSector, RootHead;
    var g, d := MadeGeometry(mb), MadeImage(mb);
    MadeClusters(mb);
    var lba, o := EntLba(g, copy, c), EntOff(g, c);
    assert lba == RESERVED + copy * g.fatsz + c / 256 && o == c % 256 * 2;
    assert d[lba] == if c / 256 == 0 then TableHead() else Zeros();
    assert c < 256 ==> o == c * 2;
  }

  /** The table: one chain of one cluster. */
  lemma MadeTable(mb: nat)
    requires 0 < mb <= 128
    ensures var g, d := MadeGeometry(mb), MadeImage(mb);
      && Fits(g, d) && Mirrored(g, d) && InRange(g, Table(g, d)) && Chain(g, Table(g, d), [2]) && g.Last() > 500
  {
    hide MadeImage, EntryAt, MadeGeometry;
    var g, d := MadeGeometry(mb), MadeImage(mb);
    MadeMounts(mb);
    MadeFits(mb);
    forall copy, c | 0 <= copy < FATS && 0 <= c < g.Last()
      ensures EntryAt(g, d, copy, c) == if c == 0 then 0xFFF8 else if c <= 2 then 0xFFFF else 0
    {
      MadeEntry(mb, copy, c);
    }
  }

  lemma MadeFits(mb: nat)
    requires 0 < mb <= 128
    ensures var g := MadeGeometry(mb);
      && |MadeImage(mb)| == g.tot && g.fats == FATS && !g.fat32 && g.Last() > 500 && g.spc == SPC && g.rootSecs == 32
      && g.rootStart < g.tot
      && g.dataStart == g.rootStart + 32 && g.dataStart < g.tot
  {
    MadeClusters(mb);
  }

  /** An entry of the root directory: the first one is the file, the others are blank. */
  lemma MadeEnt(mb: nat, s: nat, off: nat)
    requires 0 < mb <= 128 && MadeGeometry(mb).rootStart <= s < MadeGeometry(mb).dataStart && off % 32 == 0 && off < SEC
    ensures var e := EntOf(MadeImage(mb), s, off);
      if s == MadeGeometry(mb).rootStart && off == 0 then
        NameOf(e) == HELLO && e[11] == 0x20 && Le16(e, 26) == 2 && Le32(e, 28) == |GREETING|
      else e[0] == 0
  {
    hide BootSector, TableHead;
    MadeFits(mb);
    var d := MadeImage(mb);
    assert d[s] == MadeSector(mb, s);
    if s == MadeGeometry(mb).rootStart {
      assert off >= 32 || off == 0;
      HelloEnt();
    }
  }

  lemma HelloEnt()
    ensures var e := RootHead()[..32];
      && NameOf(e) == HELLO && e[11] == 0x20 && Le16(e, 26) == 2 && Le32(e, 28) == |GREETING|
    ensures forall i :: 32 <= i < SEC ==> RootHead()[i] == 0
  {
    hide Put16, Put32, Le16, Le32;
    var p := HELLO + [0x20] + seq(14, _ => 0) + Put16(2) + Put32(|GREETING|);
    assert |p| == 32 && RootHead()[..32] == p;
    assert p[26..28] == Put16(2) && p[28..32] == Put32(|GREETING|);
    EntReads16(p, 26, 2);
    EntReads32(p, 28, |GREETING|);
  }

  lemma EntReads16(p: seq<byte>, o: nat, v: nat)
    requires o + 2 <= |p| && v < 0x1_0000 && p[o..o + 2] == Put16(v)
    ensures Le16(p, o) == v
  {
    hide Put16;
    assert p[o] == p[o..o + 2][0] && p[o + 1] == p[o..o + 2][1];
  }

  lemma EntReads32(p: seq<byte>, o: nat, v: nat)
    requires o + 4 <= |p| && v < 0x1_0000_0000 && p[o..o + 4] == Put32(v)
    ensures Le32(p, o) == v
  {
    hide Put32;
    var w := p[o..o + 4];
    assert w[0] == p[o] && w[1] == p[o + 1] && w[2] == p[o + 2] && w[3] == p[o + 3];
  }

  /** The invariant holds of what the formatter makes, up to 128 MiB. */
  lemma MadeInv(mb: nat, fds: seq<Fd>)
    requires 0 < mb <= 128 && NoneOpen(fds)
    ensures Inv(MadeGeometry(mb), MadeImage(mb), fds, MadeNodes(mb))
  {
    hide MadeImage, MadeGeometry, Table, Mirrored, InRange, Chain, EntOf, DirOk, DirSecs, Complete, EntriesOk, Shape,
         ChainsOk;
    MadeTable(mb);
    MadeFits(mb);
    MadeDir(mb);
    MadeEntries(mb, fds);
    MadeShape(mb);
  }

  lemma MadeShape(mb: nat)
    requires 0 < mb <= 128
    ensures var g, nodes := MadeGeometry(mb), MadeNodes(mb);
      Shape(g, nodes) && ChainsOk(g, Table(g, MadeImage(mb)), nodes)
  {
    hide MadeImage, MadeGeometry, Table, Mirrored, InRange, Chain;
    var g, nodes := MadeGeometry(mb), MadeNodes(mb);
    MadeTable(mb);
    MadeFits(mb);
    assert Capacity(g, [2]) == SPC * SEC;
    assert InNode(g, Root, nodes[Root], g.rootStart);
  }

  lemma MadeDir(mb: nat)
    requires 0 < mb <= 128
    ensures var g, d := MadeGeometry(mb), MadeImage(mb);
      var secs := DirSecs(g, Root, []);
      && DirOk(d, secs) && Has(d, secs, 0, HELLO) && |secs| == 32 && secs[0] == g.rootStart
  {
    hide MadeImage, MadeGeometry, EntOf;
    var g, d := MadeGeometry(mb), MadeImage(mb);
    MadeFits(mb);
    var secs := DirSecs(g, Root, []);
    forall k | 0 <= k < |secs| * PER_SEC
      ensures if k == 0 then NameOf(Ent(d, secs, k)) == HELLO && Ent(d, secs, k)[11] == 0x20
        else Ent(d, secs, k)[0] == 0
    {
      MadeEnt(mb, g.rootStart + k / PER_SEC, k % PER_SEC * 32);
    }
    assert NameOf(Ent(d, secs, 0))[0] == HELLO[0];
  }

  lemma MadeEntries(mb: nat, fds: seq<Fd>)
    requires 0 < mb <= 128
    ensures EntriesOk(MadeGeometry(mb), MadeImage(mb), fds, MadeNodes(mb))
    ensures Complete(MadeGeometry(mb), MadeImage(mb), MadeNodes(mb))
  {
    hide MadeImage, MadeGeometry, EntOf, Le16, Le32;
    var g, d, nodes := MadeGeometry(mb), MadeImage(mb), MadeNodes(mb);
    MadeFits(mb);
    MadeEnt(mb, g.rootStart, 0);
    assert NameOf(EntOf(d, g.rootStart, 0))[0] == HELLO[0];
    forall s, off | 0 <= s < g.tot && 0 <= off < SEC && off % 32 == 0 && InDir(g, nodes, s) && Live(EntOf(d, s, off))
      ensures At(s, off) in nodes
    {
      MadeEnt(mb, s, off);
    }
  }

  /** What is on it: one file in the root directory, with the greeting. */
  lemma MadeHolds(mb: nat)
    requires 0 < mb <= 128
    ensures FileAt(MadeGeometry(mb), MadeImage(mb), MadeNodes(mb), [HELLO]) == Some(GREETING)
    ensures DirNames(MadeGeometry(mb), MadeImage(mb), Root, MadeNodes(mb)[Root]).Keys == {HELLO}
  {
    hide MadeImage, MadeGeometry, DirSecs, Ent, DirOk, Content;
    var g, d, nodes := MadeGeometry(mb), MadeImage(mb), MadeNodes(mb);
    var secs := DirSecs(g, Root, []);
    MadeDir(mb);
    NamesAt(d, secs, 0, HELLO);
    forall n | n in Names(d, secs) ensures n == HELLO {
      OnlyHello(mb, Names(d, secs)[n]);
    }
    assert [HELLO][..|[HELLO]| - 1] == [] && Reach(g, d, nodes, []) == Some(Root);
    assert Named(g, d, Root, nodes[Root], HELLO) == At(g.rootStart, 0);
    assert Reach(g, d, nodes, [HELLO]) == Some(At(g.rootStart, 0));
    MadeBytes(mb);
  }

  lemma OnlyHello(mb: nat, k: nat)
    requires 0 < mb <= 128
    ensures var d, secs := MadeImage(mb), DirSecs(MadeGeometry(mb), Root, []);
      k < |secs| * PER_SEC && Live(Ent(d, secs, k)) ==> k == 0
  {
    hide MadeImage, MadeGeometry, EntOf;
    MadeFits(mb);
    var g := MadeGeometry(mb);
    if 0 < k < 32 * PER_SEC {
      MadeEnt(mb, g.rootStart + k / PER_SEC, k % PER_SEC * 32);
    }
  }

  lemma MadeBytes(mb: nat)
    requires 0 < mb <= 128
    ensures Content(MadeGeometry(mb), MadeImage(mb), [2], |GREETING|) == GREETING
  {
    hide BootSector, TableHead, RootHead;
    var g, d := MadeGeometry(mb), MadeImage(mb);
    MadeFits(mb);
    assert d[g.dataStart] == Patch(Zeros(), 0, GREETING);
  }
}
