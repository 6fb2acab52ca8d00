/** An executable as the format lays it out, field by field, against what the loader reads. */
module ElfLayout {
  import opened Wrappers
  import opened Bytes
  import opened ElfFile

  /** The eight words of a program header. */
  function SegBytes(s: Seg, paddr: nat, flags: nat, align: nat): (b: seq<byte>)
    requires Words(s) && paddr < 0x1_0000_0000 && flags < 0x1_0000_0000 && align < 0x1_0000_0000
    ensures |b| == PHDR_SIZE
  {
    Put32(s.typ) + Put32(s.offset) + Put32(s.vaddr) + Put32(paddr) + Put32(s.filesz) + Put32(s.memsz) + Put32(flags)
      + Put32(align)
  }

  predicate Words(s: Seg) {
    && s.typ < 0x1_0000_0000 && s.offset < 0x1_0000_0000 && s.vaddr < 0x1_0000_0000 && s.filesz < 0x1_0000_0000
    && s.memsz < 0x1_0000_0000
  }

  /** A program header that is there is read. */
  lemma SegReads(pre: seq<byte>, s: Seg, paddr: nat, flags: nat, align: nat, post: seq<byte>)
    requires Words(s) && paddr < 0x1_0000_0000 && flags < 0x1_0000_0000 && align < 0x1_0000_0000
    ensures SegAt(pre + SegBytes(s, paddr, flags, align) + post, |pre|) == s
  {
    hide Put32, Le32;
    var d := pre + SegBytes(s, paddr, flags, align) + post;
    var r4 := Put32(flags) + Put32(align) + post;
    var p1 := pre + Put32(s.typ);
    var p2 := p1 + Put32(s.offset);
    var p3 := p2 + Put32(s.vaddr) + Put32(paddr);
    var p4 := p3 + Put32(s.filesz);
    var r3 := Put32(s.memsz) + r4;
    var r2 := Put32(paddr) + Put32(s.filesz) + r3;
    var r1 := Put32(s.vaddr) + r2;
    Field32(pre, s.typ, Put32(s.offset) + r1);
    Field32(p1, s.offset, r1);
    Field32(p2, s.vaddr, r2);
    Field32(p3, s.filesz, r3);
    Field32(p4, s.memsz, r4);
    assert d == p4 + Put32(s.memsz) + r4;
    assert d == p3 + Put32(s.filesz) + r3;
    assert d == p2 + Put32(s.vaddr) + r2;
    assert d == p1 + Put32(s.offset) + r1;
    assert d == pre + Put32(s.typ) + (Put32(s.offset) + r1);
  }

  /** The file header of an executable for this machine with its program headers right behind it. */
  function HeaderBytes(entry: nat, phnum: nat): (b: seq<byte>)
    requires entry < 0x1_0000_0000 && phnum < 0x1_0000
    ensures |b| == EHDR_SIZE
  {
    [0x7F, 0x45, 0x4C, 0x46] + seq(12, _ => 0) + Put16(2) + Put16(3) + Put32(1) + Put32(entry) + Put32(EHDR_SIZE)
      + Put32(0) + Put32(0) + Put16(EHDR_SIZE) + Put16(PHDR_SIZE) + Put16(phnum) + seq(6, _ => 0)
  }

  lemma HeaderReads(entry: nat, phnum: nat, post: seq<byte>)
    requires entry < 0x1_0000_0000 && phnum < 0x1_0000
    ensures var d := HeaderBytes(entry, phnum) + post;
      && d[..4] == [0x7F, 0x45, 0x4C, 0x46] && Le16(d, 16) == 2 && Le16(d, 18) == 3 && Le32(d, 24) == entry
      && Le32(d, 28) == EHDR_SIZE && Le16(d, 44) == phnum
  {
    hide Put16, Put32, Le16, Le32;
    var d := HeaderBytes(entry, phnum) + post;
    var p0: seq<byte> := [0x7F, 0x45, 0x4C, 0x46] + seq(12, _ => 0);
    var p1 := p0 + Put16(2);
    var p2 := p1 + Put16(3) + Put32(1);
    var p3 := p2 + Put32(entry);
    var p4 := p3 + Put32(EHDR_SIZE) + Put32(0) + Put32(0) + Put16(EHDR_SIZE) + Put16(PHDR_SIZE);
    var r4 := seq(6, _ => 0) + post;
    var r3 := Put32(0) + Put32(0) + Put16(EHDR_SIZE) + Put16(PHDR_SIZE) + Put16(phnum) + r4;
    var r2 := Put32(EHDR_SIZE) + r3;
    var r1 := Put32(1) + Put32(entry) + r2;
    Field16(p0, 2, Put16(3) + r1);
    Field16(p1, 3, r1);
    Field32(p2, entry, r2);
    Field32(p3, EHDR_SIZE, r3);
    Field16(p4, phnum, r4);
    assert d == p4 + Put16(phnum) + r4;
    assert d == p3 + Put32(EHDR_SIZE) + r3;
    assert d == p2 + Put32(entry) + r2;
    assert d == p1 + Put16(3) + r1;
    assert d == p0 + Put16(2) + (Put16(3) + r1);
    assert d[..4] == p0[..4];
  }

  /** Program headers one behind the other. */
  function Headers(segs: seq<Seg>): (b: seq<byte>)
    requires forall i :: 0 <= i < |segs| ==> Words(segs[i])
    ensures |b| == |segs| * PHDR_SIZE
  {
    if segs == [] then [] else Headers(segs[..|segs| - 1]) + SegBytes(segs[|segs| - 1], 0, 0, 0)
  }

  lemma {:induction false} HeadersRead(pre: seq<byte>, segs: seq<Seg>, post: seq<byte>, i: nat)
    requires (forall i :: 0 <= i < |segs| ==> Words(segs[i])) && i < |segs|
    ensures |pre| + i * PHDR_SIZE + PHDR_SIZE <= |pre + Headers(segs) + post|
    ensures SegAt(pre + Headers(segs) + post, |pre| + i * PHDR_SIZE) == segs[i]
    decreases |segs|
  {
    hide SegBytes, SegAt;
    var n := |segs| - 1;
    var front, last := Headers(segs[..n]), SegBytes(segs[n], 0, 0, 0);
    if i == n {
      SegReads(pre + front, segs[n], 0, 0, 0, post);
      assert pre + Headers(segs) + post == pre + front + last + post;
    } else {
      HeadersRead(pre, segs[..n], last + post, i);
      assert pre + Headers(segs) + post == pre + front + (last + post);
    }
  }

  /** The loader reads an executable's entry and segments as they were written. */
  lemma ExecutableReads(entry: nat, segs: seq<Seg>, body: seq<byte>)
    requires entry < 0x1_0000_0000 && |segs| < 0x1_0000 && forall i :: 0 <= i < |segs| ==> Words(segs[i])
    ensures Parsed(HeaderBytes(entry, |segs|) + Headers(segs) + body) == Some(Elf(entry, segs))
  {
    hide HeaderBytes, Headers, SegAt, Le16, Le32;
    var h, t := HeaderBytes(entry, |segs|), Headers(segs);
    var d := h + t + body;
    assert d == h + (t + body);
    HeaderReads(entry, |segs|, t + body);
    forall i | 0 <= i < |segs| ensures SegAt(d, EHDR_SIZE + i * PHDR_SIZE) == segs[i] {
      HeadersRead(h, segs, body, i);
    }
    assert Parsed(d).Some? && Parsed(d).value.segs == segs;
  }
}
