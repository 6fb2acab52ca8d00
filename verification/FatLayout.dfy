/** The boot sector and the directory entry as FAT lays them out, field by field, against what the driver reads. */
module FatLayout {
  import opened Wrappers
  import opened Bytes
  import opened FatTable
  import opened FatDir
  import opened FatState
  import opened FatFormat
  import opened FatDriver
  import opened FatMount

  function Fill(n: nat): (s: seq<byte>) { seq(n, _ => 0) }

  // ---- the boot sector ----

  /** What a volume's first sector says of it. */
  datatype Boot = Boot(fat32: bool, spc: byte, reserved: nat, fats: byte, rootEnts: nat, tot: nat, fatsz: nat,
                       rootClus: nat)

  /** The numbers fit their fields, and those that tell the kinds apart are set. */
  predicate Proper(b: Boot) {
    && b.spc > 0 && b.reserved < 0x1_0000 && b.rootEnts < 0x1_0000 && b.tot < 0x1_0000_0000
    && b.rootClus < 0x1_0000_0000
    && (if b.fat32 then b.fatsz < 0x1_0000_0000 else 0 < b.fatsz < 0x1_0000)
  }

  function Tot16(b: Boot): nat { if b.tot < 0x1_0000 then b.tot else 0 }

  /** Jump, maker, sector size, cluster size, reserved sectors, tables, root entries. */
  function Head(b: Boot): (s: seq<byte>)
    requires Proper(b)
  {
    Fill(11) + Put16(SEC) + [b.spc] + Put16(b.reserved) + [b.fats] + Put16(b.rootEnts)
  }

  /** Small size, medium, small table size, geometry. */
  function Small(b: Boot): (s: seq<byte>)
    requires Proper(b)
  {
    Put16(Tot16(b)) + [0xF8] + Put16(if b.fat32 then 0 else b.fatsz) + Fill(8)
  }

  /** Large size, large table size, root directory, and the mark at the end. */
  function Large(b: Boot): (s: seq<byte>)
    requires Proper(b)
  {
    Put32(if Tot16(b) == 0 then b.tot else 0) + Put32(if b.fat32 then b.fatsz else 0) + Fill(4) + Put32(b.rootClus)
      + Fill(462) + [0x55, 0xAA]
  }

  function SectorOf(b: Boot): (s: Sector)
    requires Proper(b)
  {
    Head(b) + Small(b) + Large(b)
  }

  lemma HeadReads(b: Boot, post: seq<byte>)
    requires Proper(b)
    ensures var s := Head(b) + post;
      && |Head(b)| == 19 && Le16(s, 11) == SEC && s[13] == b.spc && Le16(s, 14) == b.reserved && s[16] == b.fats
      && Le16(s, 17) == b.rootEnts
  {
    hide Put16, Le16;
    var a := Fill(11);
    Field16(a, SEC, [b.spc] + Put16(b.reserved) + [b.fats] + Put16(b.rootEnts) + post);
    var c := a + Put16(SEC) + [b.spc];
    Field16(c, b.reserved, [b.fats] + Put16(b.rootEnts) + post);
    var d := c + Put16(b.reserved) + [b.fats];
    Field16(d, b.rootEnts, post);
    var s := Head(b) + post;
    assert s == a + Put16(SEC) + ([b.spc] + Put16(b.reserved) + [b.fats] + Put16(b.rootEnts) + post);
    assert s == c + Put16(b.reserved) + ([b.fats] + Put16(b.rootEnts) + post);
    assert s == d + Put16(b.rootEnts) + post;
  }

  lemma SmallReads(b: Boot, p: seq<byte>, post: seq<byte>)
    requires Proper(b) && |p| == 19
    ensures var s := p + Small(b) + post;
      |Small(b)| == 13 && Le16(s, 19) == Tot16(b) && Le16(s, 22) == if b.fat32 then 0 else b.fatsz
  {
    hide Put16, Le16;
    var f16 := if b.fat32 then 0 else b.fatsz;
    var q := p + Put16(Tot16(b)) + [0xF8];
    Field16(p, Tot16(b), [0xF8] + Put16(f16) + Fill(8) + post);
    Field16(q, f16, Fill(8) + post);
    var s := p + Small(b) + post;
    assert s == p + Put16(Tot16(b)) + ([0xF8] + Put16(f16) + Fill(8) + post);
    assert s == q + Put16(f16) + (Fill(8) + post);
  }

  lemma LargeReads(b: Boot, p: seq<byte>)
    requires Proper(b) && |p| == 32
    ensures var s := p + Large(b);
      && |s| == SEC && Le32(s, 32) == (if Tot16(b) == 0 then b.tot else 0)
      && Le32(s, 36) == (if b.fat32 then b.fatsz else 0) && Le32(s, 44) == b.rootClus
      && s[510] == 0x55 && s[511] == 0xAA
  {
    hide Put32, Le32, Tot16;
    var t32, f32 := if Tot16(b) == 0 then b.tot else 0, if b.fat32 then b.fatsz else 0;
    var end := Fill(462) + [0x55, 0xAA];
    var q := p + Put32(t32);
    var r := q + Put32(f32) + Fill(4);
    Field32(p, t32, Put32(f32) + Fill(4) + Put32(b.rootClus) + end);
    Field32(q, f32, Fill(4) + Put32(b.rootClus) + end);
    Field32(r, b.rootClus, end);
    var s := p + Large(b);
    assert s == p + Put32(t32) + (Put32(f32) + Fill(4) + Put32(b.rootClus) + end);
    assert s == q + Put32(f32) + (Fill(4) + Put32(b.rootClus) + end);
    assert s == r + Put32(b.rootClus) + end;
  }

  lemma FieldsRead(b: Boot)
    requires Proper(b)
    ensures var s := SectorOf(b);
      && Le16(s, 11) == SEC && s[13] == b.spc && Le16(s, 14) == b.reserved && s[16] == b.fats
      && Le16(s, 17) == b.rootEnts && Le16(s, 19) == Tot16(b) && Le16(s, 22) == (if b.fat32 then 0 else b.fatsz)
      && Le32(s, 32) == (if Tot16(b) == 0 then b.tot else 0) && Le32(s, 36) == (if b.fat32 then b.fatsz else 0)
      && Le32(s, 44) == b.rootClus && s[510] == 0x55 && s[511] == 0xAA
  {
    hide Le16, Le32, Head, Small, Large, Tot16;
    HeadReads(b, Small(b) + Large(b));
    SmallReads(b, Head(b), Large(b));
    LargeReads(b, Head(b) + Small(b));
    assert SectorOf(b) == Head(b) + (Small(b) + Large(b));
  }

  /** Mounting reads the layout that a boot sector of either kind was made for. */
  lemma BootReads(b: Boot)
    requires Proper(b)
    ensures var g := BootGeometry(SectorOf(b));
      && g.Some? && g.value.fat32 == b.fat32 && g.value.fats == b.fats && g.value.fatsz == b.fatsz
      && g.value.fatStart == b.reserved && g.value.spc == b.spc && g.value.tot == b.tot
      && g.value.rootClus == (if b.fat32 && b.rootClus == 0 then 2 else b.rootClus)
      && g.value.rootStart == b.reserved + b.fats * b.fatsz
      && g.value.dataStart == g.value.rootStart + g.value.rootSecs
      && (if b.fat32 then g.value.rootSecs == 0
          else (g.value.rootSecs - 1) * SEC < b.rootEnts * 32 <= g.value.rootSecs * SEC)
  {
    hide Le16, Le32, SectorOf;
    FieldsRead(b);
  }

  /** A formatted volume of either kind mounts: the layout is read, and the invariant holds. */
  lemma FormattedMounts(b: Boot, d: Disk, fds: seq<Fd>)
    requires Proper(b) && d != [] && d[0] == SectorOf(b) && NoneOpen(fds)
    requires forall g :: BootGeometry(SectorOf(b)) == Some(g) ==> Formatted(g, d)
    ensures var g := BootGeometry(d[0]);
      g.Some? && Inv(g.value, d, fds, map[Root := Node(true, RootChain(g.value), 0)])
  {
    hide Inv, BootGeometry, Formatted, SectorOf;
    BootReads(b);
    FormattedStarts(BootGeometry(SectorOf(b)).value, d, fds);
  }

  // ---- directory entries ----

  /** Name, attribute, eight bytes, high half of the first cluster, four bytes, low half, size. */
  function EntryBytes(name: seq<byte>, attr: byte, a: seq<byte>, hi: nat, b: seq<byte>, lo: nat,
                      size: nat): (e: seq<byte>)
    requires |name| == 11 && |a| == 8 && |b| == 4 && hi < 0x1_0000 && lo < 0x1_0000 && size < 0x1_0000_0000
    ensures |e| == 32
  {
    name + [attr] + a + Put16(hi) + b + Put16(lo) + Put32(size)
  }

  /** The driver reads an entry's fields where they are. On FAT16 the high half of the cluster is something else. */
  lemma EntryReads(g: Geometry, name: seq<byte>, attr: byte, a: seq<byte>, hi: nat, b: seq<byte>, lo: nat, size: nat)
    requires |name| == 11 && |a| == 8 && |b| == 4 && hi < 0x1_0000 && lo < 0x1_0000 && size < 0x1_0000_0000
    ensures var e := EntryBytes(name, attr, a, hi, b, lo, size);
      && NameOf(e) == name && e[11] == attr && FileSize(e) == size
      && FirstClus(g, e) == if g.fat32 then 0x1_0000 * hi + lo else lo
  {
    hide Put16, Put32, Le16, Le32;
    var p0 := name + [attr] + a;
    var p1 := p0 + Put16(hi) + b;
    var p2 := p1 + Put16(lo);
    Field16(p0, hi, b + Put16(lo) + Put32(size));
    Field16(p1, lo, Put32(size));
    Field32(p2, size, []);
    var e := EntryBytes(name, attr, a, hi, b, lo, size);
    assert e == p0 + Put16(hi) + (b + Put16(lo) + Put32(size)) && e == p1 + Put16(lo) + Put32(size);
    assert e == p2 + Put32(size) + [];
    assert e[..11] == name;
  }

  /** Setting an entry's cluster and size changes those fields and nothing else. */
  lemma FieldsSet(g: Geometry, name: seq<byte>, attr: byte, a: seq<byte>, hi: nat, b: seq<byte>, lo: nat, size: nat,
                  start: nat, size': nat)
    requires |name| == 11 && |a| == 8 && |b| == 4 && hi < 0x1_0000 && lo < 0x1_0000 && size < 0x1_0000_0000
    requires start < 0x1_0000_0000 && size' < 0x1_0000_0000
    ensures WithFields(g, EntryBytes(name, attr, a, hi, b, lo, size), start, size')
      == EntryBytes(name, attr, a, if g.fat32 then start / 0x1_0000 else hi, b, start % 0x1_0000, size')
  {
    hide Put16, Put32;
    assert start / 0x1_0000 < 0x1_0000;
  }

  /** A new entry names its cluster and nothing else: a file without bytes if there is none, or else a directory. */
  lemma NewEntryIs(g: Geometry, name: seq<byte>, clus: nat)
    requires |name| == 11 && clus < 0x1_0000_0000
    ensures var zeros := Fill(12);
      NewEntry(g, name, clus) == EntryBytes(name, if clus == 0 then 0x20 else 0x10, zeros[..8],
                                            if g.fat32 then clus / 0x1_0000 else 0, zeros[..4], clus % 0x1_0000, 0)
  {
    hide WithFields;
    var attr: byte := if clus == 0 then 0x20 else 0x10;
    BlankEntry(name, attr);
    FieldsSet(g, name, attr, Fill(12)[..8], 0, Fill(12)[..4], 0, 0, clus, 0);
  }

  lemma BlankEntry(name: seq<byte>, attr: byte)
    requires |name| == 11
    ensures EntryBytes(name, attr, Fill(12)[..8], 0, Fill(12)[..4], 0, 0) == name + [attr] + seq(20, _ => 0)
  {
    assert Put16(0) == [0, 0] && Put32(0) == [0, 0, 0, 0];
  }

  /** Plain files, directories, volume labels and pieces of long names are told apart by their attributes. */
  lemma KindsOf(e: seq<byte>)
    requires |e| == 32
    ensures e[11] == 0x20 ==> !IsDirAttr(e) && !IsVolume(e)
    ensures e[11] == 0x10 ==> IsDirAttr(e) && !IsVolume(e)
    ensures e[11] == 0x08 ==> !IsDirAttr(e) && IsVolume(e)
    ensures e[11] == 0x0F ==> !Live(e)
    ensures e[11] in {0x20, 0x10, 0x08} ==> (Live(e) <==> e[0] !in {0, 0xE5})
  {
  }
}
