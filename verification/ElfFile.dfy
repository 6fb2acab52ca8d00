/** Executables: the header fields the loader reads, the address range it computes and the image it builds. */
module ElfFile {
  import opened Wrappers
  import opened Bytes
  import opened Pages

  const LOAD: nat := 1
  const EHDR_SIZE: nat := 52
  const PHDR_SIZE: nat := 32
  const NO_ADDR: nat := 0xFFFF_FFFF

  /** Where programs may be linked to. */
  const USER_LO: nat := 0x0200_0000
  const USER_HI: nat := 0x0800_0000

  datatype Seg = Seg(typ: nat, offset: nat, vaddr: nat, filesz: nat, memsz: nat)

  datatype Elf = Elf(entry: nat, segs: seq<Seg>)

  function SegAt(data: seq<byte>, o: nat): Seg
    requires o + PHDR_SIZE <= |data|
  {
    Seg(Le32(data, o), Le32(data, o + 4), Le32(data, o + 8), Le32(data, o + 16), Le32(data, o + 20))
  }

  /** The header and the program headers, if the file begins like an executable for this machine. */
  function Parsed(data: seq<byte>): (r: Option<Elf>) {
    if |data| < EHDR_SIZE then None
    else if data[..4] != [0x7F, 0x45, 0x4C, 0x46] then None
    else if Le16(data, 16) != 2 || Le16(data, 18) != 3 then None
    else
      var phoff, phnum := Le32(data, 28), Le16(data, 44);
      if phoff + phnum * PHDR_SIZE > |data| then None
      else Some(Elf(Le32(data, 24), seq(phnum, i requires 0 <= i < phnum => SegAt(data, phoff + i * PHDR_SIZE))))
  }

  predicate Misplaced(s: Seg) { s.typ == LOAD && (s.vaddr < USER_LO || s.vaddr >= USER_HI) }

  /** Lowest address of a loaded segment. */
  function MinVa(segs: seq<Seg>): (r: nat)
    ensures forall s :: s in segs && s.typ == LOAD ==> r <= s.vaddr
    ensures r == NO_ADDR || exists s :: s in segs && s.typ == LOAD && s.vaddr == r
  {
    if segs == [] then NO_ADDR
    else
      var r, s := MinVa(segs[..|segs| - 1]), segs[|segs| - 1];
      assert segs == segs[..|segs| - 1] + [s];
      if s.typ == LOAD && s.vaddr < r then s.vaddr else r
  }

  /** One past the highest. */
  function MaxVa(segs: seq<Seg>): (r: nat)
    ensures forall s :: s in segs && s.typ == LOAD ==> s.vaddr + s.memsz <= r
    ensures r == 0 || exists s :: s in segs && s.typ == LOAD && s.vaddr + s.memsz == r
  {
    if segs == [] then 0
    else
      var r, s := MaxVa(segs[..|segs| - 1]), segs[|segs| - 1];
      assert segs == segs[..|segs| - 1] + [s];
      if s.typ == LOAD && s.vaddr + s.memsz > r then s.vaddr + s.memsz else r
  }

  /** The range the segments span, if all lie where programs may be linked to and there is something to load. */
  function Span(segs: seq<Seg>): Option<(nat, nat)> {
    if exists s :: s in segs && Misplaced(s) then None
    else
      var lo, hi := MinVa(segs), MaxVa(segs);
      if lo == NO_ADDR || hi <= lo then None else Some((lo, hi))
  }

  /** Computes the span. */
  method FindSpan(segs: seq<Seg>) returns (r: Option<(nat, nat)>)
    ensures r == Span(segs)
  {
    hide MinVa, MaxVa, Span;
    var lo, hi := NO_ADDR, 0;
    SpanStart();
    assert segs[..0] == [];
    for i := 0 to |segs|
      invariant lo == MinVa(segs[..i]) && hi == MaxVa(segs[..i])
      invariant forall j :: 0 <= j < i ==> !Misplaced(segs[j])
    {
      var s := segs[i];
      SpanStep(segs, i);
      if s.typ == LOAD {
        if s.vaddr < USER_LO || s.vaddr >= USER_HI {
          SpanBad(segs, i);
          return None;
        }
        if s.vaddr < lo {
          lo := s.vaddr;
        }
        if s.vaddr + s.memsz > hi {
          hi := s.vaddr + s.memsz;
        }
      }
    }
    assert segs[..|segs|] == segs;
    SpanGood(segs);
    if lo == NO_ADDR || hi <= lo {
      return None;
    }
    return Some((lo, hi));
  }

  lemma SpanStart()
    ensures MinVa([]) == NO_ADDR && MaxVa([]) == 0
  {
  }

  lemma SpanStep(segs: seq<Seg>, i: nat)
    requires i < |segs|
    ensures var s, lo, hi := segs[i], MinVa(segs[..i]), MaxVa(segs[..i]);
      && MinVa(segs[..i + 1]) == (if s.typ == LOAD && s.vaddr < lo then s.vaddr else lo)
      && MaxVa(segs[..i + 1]) == (if s.typ == LOAD && s.vaddr + s.memsz > hi then s.vaddr + s.memsz else hi)
  {
    assert segs[..i + 1][..i] == segs[..i];
  }

  lemma SpanBad(segs: seq<Seg>, i: nat)
    requires i < |segs| && Misplaced(segs[i])
    ensures Span(segs) == None
  {
    assert segs[i] in segs;
  }

  lemma SpanGood(segs: seq<Seg>)
    requires forall j :: 0 <= j < |segs| ==> !Misplaced(segs[j])
    ensures var lo, hi := MinVa(segs), MaxVa(segs);
      Span(segs) == if lo == NO_ADDR || hi <= lo then None else Some((lo, hi))
  {
  }

  // ---- the image ----

  predicate InFile(s: Seg, data: seq<byte>) { s.typ == LOAD ==> s.filesz <= s.memsz && s.offset + s.filesz <= |data| }

  /** The bytes of a segment in memory: those of the file, then zeros. */
  function SegBytes(s: Seg, data: seq<byte>): (b: seq<byte>)
    requires s.typ == LOAD && InFile(s, data)
    ensures |b| == s.memsz
  {
    data[s.offset..s.offset + s.filesz] + seq(s.memsz - s.filesz, _ => 0)
  }

  predicate InSpan(s: Seg, lo: nat, n: nat) { s.typ == LOAD ==> lo <= s.vaddr && s.vaddr + s.memsz <= lo + n }

  ghost predicate Fitting(segs: seq<Seg>, data: seq<byte>, lo: nat, n: nat) {
    forall i :: 0 <= i < |segs| ==> InFile(segs[i], data) && InSpan(segs[i], lo, n)
  }

  /** `n` zero bytes from address `lo` on, with the segments laid over them in order. */
  ghost function Image(segs: seq<Seg>, data: seq<byte>, lo: nat, n: nat): (b: seq<byte>)
    requires Fitting(segs, data, lo, n)
    ensures |b| == n
  {
    if segs == [] then seq(n, _ => 0)
    else
      var s := segs[|segs| - 1];
      var b := Image(segs[..|segs| - 1], data, lo, n);
      if s.typ == LOAD then Patch(b, s.vaddr - lo, SegBytes(s, data)) else b
  }

  predicate Covers(s: Seg, a: nat) { s.typ == LOAD && s.vaddr <= a < s.vaddr + s.memsz }

  /**
   * A byte of the image comes from the last segment that covers it; from the file where that has bytes, else it is 0.
   */
  lemma {:induction false} ImageByte(segs: seq<Seg>, data: seq<byte>, lo: nat, n: nat, x: nat, k: nat)
    requires Fitting(segs, data, lo, n) && x < n
    requires k < |segs| && Covers(segs[k], lo + x) && forall j :: k < j < |segs| ==> !Covers(segs[j], lo + x)
    ensures var s := segs[k];
      Image(segs, data, lo, n)[x] == if lo + x - s.vaddr < s.filesz then data[s.offset + (lo + x - s.vaddr)] else 0
  {
    if k < |segs| - 1 {
      ImageByte(segs[..|segs| - 1], data, lo, n, x, k);
      assert !Covers(segs[|segs| - 1], lo + x);
    }
  }

  /** A byte no segment covers is 0. */
  lemma {:induction false} ImageGap(segs: seq<Seg>, data: seq<byte>, lo: nat, n: nat, x: nat)
    requires Fitting(segs, data, lo, n) && x < n && forall j :: 0 <= j < |segs| ==> !Covers(segs[j], lo + x)
    ensures Image(segs, data, lo, n)[x] == 0
  {
    if segs != [] {
      ImageGap(segs[..|segs| - 1], data, lo, n, x);
      assert !Covers(segs[|segs| - 1], lo + x);
    }
  }

  /** The span holds every segment, rounded up to whole pages. */
  lemma SpanHolds(segs: seq<Seg>, data: seq<byte>, lo: nat, hi: nat)
    requires Span(segs) == Some((lo, hi)) && forall i :: 0 <= i < |segs| ==> InFile(segs[i], data)
    ensures USER_LO <= lo < hi && Fitting(segs, data, lo, Size(PagesFor(hi - lo)))
  {
    forall i | 0 <= i < |segs| ensures InSpan(segs[i], lo, Size(PagesFor(hi - lo))) {
      assert segs[i] in segs;
    }
    var s :| s in segs && s.typ == LOAD && s.vaddr == lo;
    assert !Misplaced(s);
  }

  /**
   * Files the loader is meant for: linked to a page, inside memory, no segment with more bytes in the file than in
   * memory.
   */
  ghost predicate Linkable(data: seq<byte>, top: nat) {
    var e := Parsed(data);
    e.Some? && Span(e.value.segs).Some? ==>
      var (lo, hi) := Span(e.value.segs).value;
      && lo % PAGE == 0 && lo + Size(PagesFor(hi - lo)) <= top
      && forall i :: 0 <= i < |e.value.segs| && e.value.segs[i].typ == LOAD ==>
         e.value.segs[i].filesz <= e.value.segs[i].memsz
  }

  /** Every loaded segment's bytes are in the file. */
  predicate AllInFile(segs: seq<Seg>, data: seq<byte>) { forall i :: 0 <= i < |segs| ==> InFile(segs[i], data) }
}
