/** The volume's layout and its file allocation table, read from and written to sectors. */
module FatTable {
  import opened Bytes

  type Disk = seq<Sector>

  /** What mounting reads from the boot sector. */
  datatype Geometry = Geometry(fat32: bool, fats: nat, fatsz: nat, fatStart: nat,
                               rootStart: nat, rootSecs: nat, dataStart: nat,
                               spc: nat, rootClus: nat, tot: nat)
  {
    /** Bytes per table entry. */
    function EntSize(): (n: nat) { if fat32 then 4 else 2 }

    /** Entries in one copy of the table. */
    function Ents(): nat { if fat32 then fatsz * 128 else fatsz * 256 }

    /** The significant part of an entry; FAT32 keeps four reserved bits above it. */
    function Mask(): (n: nat) ensures n > 0 { if fat32 then 0x1000_0000 else 0x1_0000 }

    function EocMin(): nat { if fat32 then 0x0FFF_FFF8 else 0xFFF8 }

    function EocMark(): nat { if fat32 then 0x0FFF_FFFF else 0xFFFF }

    predicate IsEoc(v: nat) { v >= EocMin() }

    /** One past the last cluster number. */
    function Last(): nat { if spc > 0 && dataStart <= tot then 2 + (tot - dataStart) / spc else 2 }

    /** The three regions follow each other and the table has an entry, below the markers, for every cluster. */
    ghost predicate Valid() {
      && spc > 0 && fats > 0 && fatStart > 0
      && rootStart == fatStart + fats * fatsz
      && dataStart == rootStart + rootSecs
      && dataStart <= tot
      && (fat32 ==> rootSecs == 0 && 2 <= rootClus < Last())
      && Last() <= Ents()
      && Last() <= EocMin()
    }

    /** First sector of a cluster. */
    function ClusLba(c: nat): nat { if c >= 2 then dataStart + (c - 2) * spc else dataStart }

    /** The cluster a data sector belongs to. */
    function ClusOf(lba: nat): nat { if spc > 0 && dataStart <= lba then 2 + (lba - dataStart) / spc else 0 }

    predicate InFat(lba: nat) { fatStart <= lba < fatStart + fats * fatsz }
  }

  ghost predicate Fits(g: Geometry, d: Disk) { g.Valid() && |d| == g.tot }

  /** Where entry `c` of copy `copy` lives. */
  function EntLba(g: Geometry, copy: nat, c: nat): nat { g.fatStart + copy * g.fatsz + c * g.EntSize() / SEC }

  function EntOff(g: Geometry, c: nat): nat { c * g.EntSize() % SEC }

  lemma EntryPlace(g: Geometry, copy: nat, c: nat)
    requires g.Valid() && copy < g.fats && c < g.Ents()
    ensures EntLba(g, copy, c) < g.tot && g.InFat(EntLba(g, copy, c))
    ensures EntOff(g, c) + g.EntSize() <= SEC
  {
    var q := c * g.EntSize() / SEC;
    assert q < g.fatsz && EntOff(g, c) + g.EntSize() <= SEC by { OffsetInCopy(g, c); }
    CopyBound(copy, g.fats, g.fatsz, q);
  }

  lemma OffsetInCopy(g: Geometry, c: nat)
    requires c < g.Ents()
    ensures c * g.EntSize() / SEC < g.fatsz && EntOff(g, c) + g.EntSize() <= SEC
  {
    if g.fat32 {
      assert c * g.EntSize() == c * 4;
    } else {
      assert c * g.EntSize() == c * 2;
    }
  }

  lemma CopyBound(copy: nat, fats: nat, fatsz: nat, q: nat)
    requires copy < fats && q < fatsz
    ensures copy * fatsz + q < fats * fatsz
  {
    MulMono(copy + 1, fats, fatsz);
    assert (copy + 1) * fatsz == copy * fatsz + fatsz;
  }

  /** The stored entry; 0 where the table has none. */
  function RawAt(g: Geometry, d: Disk, copy: nat, c: nat): (v: nat)
    ensures v < if g.fat32 then 0x1_0000_0000 else 0x1_0000
  {
    var lba, o := EntLba(g, copy, c), EntOff(g, c);
    if lba < |d| && o + g.EntSize() <= SEC then
      if g.fat32 then Le32(d[lba], o) else Le16(d[lba], o)
    else 0
  }

  /** The entry's value as every caller sees it. */
  function EntryAt(g: Geometry, d: Disk, copy: nat, c: nat): nat { RawAt(g, d, copy, c) % g.Mask() }

  /** The table the driver works with: the first copy, up to the last cluster. */
  ghost function Table(g: Geometry, d: Disk): (t: seq<nat>)
    ensures |t| == g.Last()
  {
    seq(g.Last(), c requires 0 <= c => EntryAt(g, d, 0, c))
  }

  ghost predicate Mirrored(g: Geometry, d: Disk) {
    forall copy, c :: 0 <= copy < g.fats && 0 <= c < g.Last() ==> EntryAt(g, d, copy, c) == EntryAt(g, d, 0, c)
  }

  /** An entry's new raw value: the reserved bits stay. */
  function Splice(g: Geometry, raw: nat, v: nat): nat { raw / g.Mask() * g.Mask() + v % g.Mask() }

  function EncodeEntry(g: Geometry, raw: nat, v: nat): (p: seq<byte>)
    requires raw < if g.fat32 then 0x1_0000_0000 else 0x1_0000
    ensures |p| == g.EntSize()
  {
    if g.fat32 then Put32(Splice(g, raw, v)) else Put16(Splice(g, raw, v))
  }

  /** One table entry overwritten in one copy. */
  ghost function SetOne(g: Geometry, d: Disk, copy: nat, c: nat, v: nat): (d': Disk)
    requires Fits(g, d) && copy < g.fats && c < g.Ents()
    ensures Fits(g, d')
  {
    EntryPlace(g, copy, c);
    var lba := EntLba(g, copy, c);
    d[lba := Patch(d[lba], EntOff(g, c), EncodeEntry(g, RawAt(g, d, copy, c), v))]
  }

  /** Different entries never share a byte. */
  lemma EntriesApart(g: Geometry, copy1: nat, c1: nat, copy2: nat, c2: nat)
    requires g.Valid() && copy1 < g.fats && copy2 < g.fats && c1 < g.Ents() && c2 < g.Ents()
    requires copy1 != copy2 || c1 != c2
    ensures EntLba(g, copy1, c1) != EntLba(g, copy2, c2)
         || EntOff(g, c1) + g.EntSize() <= EntOff(g, c2)
         || EntOff(g, c2) + g.EntSize() <= EntOff(g, c1)
  {
    if EntLba(g, copy1, c1) == EntLba(g, copy2, c2) {
      var q1, q2 := c1 * g.EntSize() / SEC, c2 * g.EntSize() / SEC;
      var n := copy1 * g.fatsz + q1;
      OffsetInCopy(g, c1);
      OffsetInCopy(g, c2);
      DivModUnique(n, g.fatsz, copy1, q1);
      DivModUnique(n, g.fatsz, copy2, q2);
    }
  }

  /** Writing one entry in one copy changes that entry and nothing else. */
  lemma SetOneEffect(g: Geometry, d: Disk, copy: nat, c: nat, v: nat)
    requires Fits(g, d) && copy < g.fats && c < g.Ents()
    ensures var d' := SetOne(g, d, copy, c, v);
      && RawAt(g, d', copy, c) == Splice(g, RawAt(g, d, copy, c), v)
      && (forall copy', c' :: 0 <= copy' < g.fats && 0 <= c' < g.Ents() && (copy', c') != (copy, c) ==>
            RawAt(g, d', copy', c') == RawAt(g, d, copy', c'))
      && (forall lba :: 0 <= lba < g.tot && !g.InFat(lba) ==> d'[lba] == d[lba])
  {
    EntryPlace(g, copy, c);
    var d' := SetOne(g, d, copy, c, v);
    forall copy', c' | 0 <= copy' < g.fats && 0 <= c' < g.Ents() && (copy', c') != (copy, c)
      ensures RawAt(g, d', copy', c') == RawAt(g, d, copy', c')
    {
      EntryPlace(g, copy', c');
      EntriesApart(g, copy, c, copy', c');
    }
    var p := EncodeEntry(g, RawAt(g, d, copy, c), v);
    var s, o := d'[EntLba(g, copy, c)], EntOff(g, c);
    assert s[o..o + |p|] == p;
    SpliceBack(g, RawAt(g, d, copy, c), v, s, o);
  }

  lemma SpliceBack(g: Geometry, raw: nat, v: nat, s: seq<byte>, o: nat)
    requires raw < if g.fat32 then 0x1_0000_0000 else 0x1_0000
    requires o + g.EntSize() <= |s| && s[o..o + g.EntSize()] == EncodeEntry(g, raw, v)
    ensures (if g.fat32 then Le32(s, o) else Le16(s, o)) == Splice(g, raw, v)
  {
    var p := s[o..o + g.EntSize()];
    assert p[0] == s[o] && p[1] == s[o + 1];
    if g.fat32 {
      assert p[2] == s[o + 2] && p[3] == s[o + 3];
      assert Le32(p, 0) == Le32(s, o);
    } else {
      assert Le16(p, 0) == Le16(s, o);
    }
  }
}
