/** The kernel's process layer: swapping images, loading, spawning, waiting, leaving, killing and reaping. */
module ProcKernel {
  import opened Wrappers
  import opened Bytes
  import opened Pages
  import opened ProcImages
  import opened ProcPlan
  import opened ProcTable
  import opened ElfFile

  const BLOCK_MAX: nat := 8
  const USTACK_PAGES: nat := 32

  class Kernel {
    var l: Layout
    const pm: PageMap
    const procs: array<Proc>
    const ram: Ram
    var current: nat
    var stack: seq<nat>
    var nextPid: nat
    var fgPid: nat

    /** Pages and images are in order. */
    ghost predicate Mem()
      reads this, ram, pm, pm.cells, procs
    {
      pm.Valid() && pm.count == l.count && MemOk(l, ram.bytes, pm.Bits(), procs[..])
    }

    /** Between any two steps: also pids, the wait stack and the one that runs. */
    ghost predicate Valid()
      reads this, ram, pm, pm.cells, procs
    {
      && Mem() && TableOk(procs[..], nextPid, stack + [current]) && |stack| <= BLOCK_MAX
      && current < procs.Length && forall m :: 0 <= m < |stack| ==> stack[m] < procs.Length
    }

    /** Everything but memory. */
    ghost function Now(): Moment
      requires pm.Valid()
      reads this, pm, pm.cells, procs
    {
      Moment(pm.Bits(), procs[..], current, stack, nextPid)
    }

    /** Process 1 runs, nothing else exists. */
    constructor (layout: Layout, memory: Ram, slots: nat)
      requires layout.Valid() && layout.base <= |memory.bytes| && slots > 0 && layout.lent == map[]
      ensures Valid() && l == layout && ram == memory && stack == [] && current == 0 && fresh(pm) && fresh(pm.cells)
      ensures fresh(procs)
      ensures procs[..] == FirstRows(slots) && pm.Bits() == seq(layout.count, _ => false) && nextPid == 2
    {
      l, ram, current, stack, nextPid, fgPid := layout, memory, 0, [], 2, 1;
      pm := new PageMap(layout.count);
      procs := new Proc[slots](_ => BLANK);
      new;
      procs[0] := BLANK.(used := true, pid := 1, state := Running);
      assert procs[..] == FirstRows(slots);
      FirstTable(l, ram.bytes, pm.Bits(), procs[..]);
    }

    // ---- swapping ----

    /** Copies a live image to free pages. */
    method SwapOut(i: nat) returns (s: Option<nat>)
      requires Mem() && i < procs.Length && Live(procs[i])
      modifies ram`bytes, procs, pm.cells
      ensures Mem() && Swapped(old(procs[..]), procs[..])
      ensures SameImages(l, old(ram.bytes), old(procs[..]), ram.bytes, procs[..])
      ensures OnlyTakes(old(pm.Bits()), old(procs[..]), pm.Bits(), procs[..]) && |ram.bytes| == |old(ram.bytes)|
      ensures s == FirstFit(old(pm.Bits()), old(procs[i].pages), 0)
      ensures s.None? ==>
        ram.bytes == old(ram.bytes) && procs[..] == old(procs[..]) && pm.Bits() == old(pm.Bits())
          && NoRoom(pm.Bits(), procs[i].pages)
      ensures s.Some? ==>
        procs[..] == old(procs[..])[i := Out(old(procs[i]), s.value)]
          && pm.Bits() == WithRun(old(pm.Bits()), s.value, old(procs[i].pages), true)
    {
      hide MemOk, SameImages, Swapped, OnlyTakes, Patch, Size, Layout.Addr, FreeRun, NoRoom, WithRun, PageMap.Bits,
           FirstFit;
      ghost var ps, bits := procs[..], pm.Bits();
      Nothing(l, ram.bytes, bits, ps);
      var p := procs[i];
      s := pm.Alloc(p.pages);
      if s.None? {
        return;
      }
      SwapOne(l, ram.bytes, bits, ps, i, s.value);
      ram.bytes := Patch(ram.bytes, l.Addr(s.value), ram.bytes[p.image..p.image + Size(p.pages)]);
      procs[i] := p.(shadow := s, evicted := true);
      assert procs[..] == ps[i := Out(p, s.value)];
    }

    /** Swaps out every live image that meets a range. */
    method EvictRange(lo: nat, hi: nat) returns (ok: bool)
      requires Mem()
      modifies ram`bytes, procs, pm.cells
      ensures Mem() && Swapped(old(procs[..]), procs[..])
      ensures SameImages(l, old(ram.bytes), old(procs[..]), ram.bytes, procs[..])
      ensures OnlyTakes(old(pm.Bits()), old(procs[..]), pm.Bits(), procs[..])
      ensures |ram.bytes| == |old(ram.bytes)|
      ensures forall j :: 0 <= j < procs.Length ==>
        procs[j] == old(procs[j]) || (procs[j].evicted && Live(old(procs[j])) && Meets(old(procs[j]), lo, hi))
      ensures ok ==> forall j :: 0 <= j < procs.Length && Live(procs[j]) ==> !Meets(procs[j], lo, hi)
      ensures !ok ==>
        exists j ::
          0 <= j < procs.Length && Live(procs[j]) && Meets(procs[j], lo, hi) && NoRoom(pm.Bits(), procs[j].pages)
      ensures Plan(pm.Bits(), procs[..]) == SweptOut(old(pm.Bits()), old(procs[..]), lo, hi, procs.Length, 0)
      ensures ok <==> RoomFor(old(pm.Bits()), old(procs[..]), lo, hi, procs.Length, 0)
    {
      hide MemOk, SameImages, Swapped, OnlyTakes, Patch, Size, Layout.Addr, FreeRun, NoRoom, WithRun, PageMap.Bits,
           SweptOut, RoomFor, FirstFit;
      ghost var m0, ps0, bits0 := ram.bytes, procs[..], pm.Bits();
      Nothing(l, ram.bytes, bits0, ps0);
      for i := 0 to procs.Length
        invariant Mem() && Swapped(ps0, procs[..]) && SameImages(l, m0, ps0, ram.bytes, procs[..])
        invariant OnlyTakes(bits0, ps0, pm.Bits(), procs[..])
        invariant |ram.bytes| == |m0|
        invariant forall j :: 0 <= j < procs.Length ==>
          procs[j] == ps0[j] || (j < i && procs[j].evicted && Live(ps0[j]) && Meets(ps0[j], lo, hi))
        invariant forall j :: 0 <= j < i && Live(procs[j]) ==> !Meets(procs[j], lo, hi)
        invariant SweptOut(pm.Bits(), procs[..], lo, hi, procs.Length, i) == SweptOut(bits0, ps0, lo, hi, procs.Length,
          0)
        invariant RoomFor(pm.Bits(), procs[..], lo, hi, procs.Length, i) == RoomFor(bits0, ps0, lo, hi, procs.Length, 0)
      {
        var p := procs[i];
        NoImageAtZero(l, ram.bytes, pm.Bits(), procs[..], i);
        if !InWay(procs[..], lo, hi, procs.Length, i) {
          SweepSkip(pm.Bits(), procs[..], lo, hi, procs.Length, i);
        }
        if !p.used || p.image == 0 || p.pages == 0 {
          continue;
        }
        if p.evicted || p.state == Zombie {
          continue;
        }
        if lo >= p.image + Size(p.pages) || hi <= p.image {
          continue;
        }
        ghost var m1, bits1, ps1 := ram.bytes, pm.Bits(), procs[..];
        var s := SwapOut(i);
        if s.None? {
          SweepStop(bits1, ps1, lo, hi, procs.Length, i);
          return false;
        }
        SweepOne(bits1, ps1, lo, hi, procs.Length, i, s.value);
        SwapTrans(l, m0, bits0, ps0, m1, bits1, ps1, ram.bytes, pm.Bits(), procs[..]);
      }
      SweepEnd(pm.Bits(), procs[..], lo, hi, procs.Length);
      ok := true;
    }

    /** Gives pages back; their bytes are poisoned. */
    method FreePages(s: nat, n: nat)
      requires pm.Valid() && pm.count == l.count && s + n <= l.count && l.Addr(s) + Size(n) <= |ram.bytes|
      modifies ram`bytes, pm.cells
      ensures ram.bytes == Poisoned(l, old(ram.bytes), s, n) && pm.Bits() == WithRun(old(pm.Bits()), s, n, false)
    {
      hide Patch, Size, Layout.Addr, WithRun, PageMap.Bits;
      ram.bytes := Patch(ram.bytes, l.Addr(s), seq(Size(n), _ => POISON));
      pm.Free(s, n);
    }

    /**
     * Loads an executable to its link address: 0, or -1 for a bad file, -2 if an image in the way could not be swapped
     * out.
     */
    method ElfLoad(data: seq<byte>) returns (r: int, entry: nat, image: nat, pages: nat)
      requires Mem() && Linkable(data, |ram.bytes|) && l.base <= USER_LO
      modifies ram`bytes, procs, pm.cells
      ensures Mem() && Swapped(old(procs[..]), procs[..])
      ensures SameImages(l, old(ram.bytes), old(procs[..]), ram.bytes, procs[..])
      ensures OnlyTakes(old(pm.Bits()), old(procs[..]), pm.Bits(), procs[..]) && |ram.bytes| == |old(ram.bytes)|
      ensures r == 0 || r == -1 || r == -2
      ensures Loads(data) ==> r != -1
      ensures r == 0 ==>
        && Loads(data) && entry == Parsed(data).value.entry && image == Linked(data).0 && pages == Linked(data).1
        && Sub(ram.bytes, image, Size(pages)) == Linked(data).2
        && pages > 0 && l.base <= image && image % PAGE == 0 && image + Size(pages) <= |ram.bytes|
        && forall j :: 0 <= j < procs.Length && Live(procs[j]) ==> !Meets(procs[j], image, image + Size(pages))
      ensures r == -2 ==>
        Spans(data) && exists j :: 0 <= j < procs.Length && Live(procs[j]) && NoRoom(pm.Bits(), procs[j].pages)
      ensures !Spans(data) ==>
        r == -1 && ram.bytes == old(ram.bytes) && procs[..] == old(procs[..]) && pm.Bits() == old(pm.Bits())
      ensures Spans(data) ==>
        var (lo, hi) := SpanOf(data);
        && Plan(pm.Bits(), procs[..]) == SweptOut(old(pm.Bits()), old(procs[..]), lo, hi, procs.Length, 0)
        && r == if !RoomFor(old(pm.Bits()), old(procs[..]), lo, hi, procs.Length, 0) then -2 else if Loads(data) then 0
           else -1
    {
      hide MemOk, SameImages, Swapped, OnlyTakes, Patch, Size, Layout.Addr, NoRoom, PageMap.Bits, Parsed, Meets, Span,
           Sub, Fitting, PagesFor, Image, SweptOut, RoomFor;
      ghost var m0, ps0 := ram.bytes, procs[..];
      r, entry, image, pages := -1, 0, 0, 0;
      Nothing(l, ram.bytes, pm.Bits(), procs[..]);
      var elf := Parsed(data);
      if elf.None? {
        return;
      }
      var segs := elf.value.segs;
      var span := FindSpan(segs);
      if span.None? {
        return;
      }
      var lo, hi := span.value.0, span.value.1;
      var ok := EvictRange(lo, hi);
      if !ok {
        r := -2;
        return;
      }
      SpanPlace(segs, lo, hi);
      SizePositive(lo, hi);
      ghost var m1, ps1 := ram.bytes, procs[..];
      r := LoadSegments(data, segs, lo, hi);
      SameTrans(l, m0, ps0, m1, ps1, ram.bytes, procs[..]);
      entry, image, pages := elf.value.entry, lo, PagesFor(hi - lo);
    }

    /** Zeroes the span and lays the segments over it. */
    method LoadSegments(data: seq<byte>, segs: seq<Seg>, lo: nat, hi: nat) returns (r: int)
      requires Mem() && Span(segs) == Some((lo, hi)) && lo % PAGE == 0 && lo + Size(PagesFor(hi - lo)) <= |ram.bytes|
      requires l.base <= USER_LO
      requires forall i :: 0 <= i < |segs| && segs[i].typ == LOAD ==> segs[i].filesz <= segs[i].memsz
      requires forall j :: 0 <= j < procs.Length && Live(procs[j]) ==> !Meets(procs[j], lo, hi)
      modifies ram`bytes
      ensures Mem() && SameImages(l, old(ram.bytes), procs[..], ram.bytes, procs[..]) && |ram.bytes| == |old(ram.bytes)|
      ensures r == if AllInFile(segs, data) then 0 else -1
      ensures l.base <= lo
      ensures forall j :: 0 <= j < procs.Length && Live(procs[j]) ==> !Meets(procs[j], lo, lo + Size(PagesFor(hi - lo)))
      ensures r == 0 ==>
        Fitting(segs, data, lo, Size(PagesFor(hi - lo))) &&
        Sub(ram.bytes, lo, Size(PagesFor(hi - lo))) == Image(segs, data, lo, Size(PagesFor(hi - lo)))
    {
      hide MemOk, SameImages, Meets, PageMap.Bits, Span, Image, Live, PagesFor, Size, SameOutside, Sub, Patch, Fitting,
           Laid;
      SpanPlace(segs, lo, hi);
      ghost var m0, n := ram.bytes, Size(PagesFor(hi - lo));
      WholePages(l, ram.bytes, pm.Bits(), procs[..], lo, hi);
      SizePositive(lo, hi);
      PatchSub(ram.bytes, lo, n, lo, seq(n, _ => 0));
      PatchAll(Sub(ram.bytes, lo, n), seq(n, _ => 0));
      ram.bytes := Patch(ram.bytes, lo, seq(Size(PagesFor(hi - lo)), _ => 0));
      EmptyImage(data, lo, n);
      assert segs[..0] == [];
      for i := 0 to |segs|
        invariant |ram.bytes| == |m0| && SameOutside(m0, ram.bytes, lo, lo + n) && AllInFile(segs[..i], data)
        invariant Fitting(segs[..i], data, lo, n)
        invariant Sub(ram.bytes, lo, n) == Image(segs[..i], data, lo, n)
      {
        var s := segs[i];
        if s.typ != LOAD {
          SegFits(segs, data, lo, hi, i);
          SegSkipped(segs, data, lo, n, i);
          continue;
        }
        if s.offset + s.filesz > |data| {
          LoadOver(l, m0, ram.bytes, pm.Bits(), procs[..], lo, lo + n);
          return -1;
        }
        SegFits(segs, data, lo, hi, i);
        SegPlaced(segs, data, lo, n, i, ram.bytes);
        OutsideTrans(m0, ram.bytes, Laid(ram.bytes, s, data), lo, lo + n);
        LaySegment(s, data);
      }
      assert segs[..|segs|] == segs;
      LoadOver(l, m0, ram.bytes, pm.Bits(), procs[..], lo, lo + n);
      r := 0;
    }

    /** Copies a segment's bytes to its address and zeroes the rest of it. */
    method LaySegment(s: Seg, data: seq<byte>)
      requires s.filesz <= s.memsz && s.offset + s.filesz <= |data| && s.vaddr + s.memsz <= |ram.bytes|
      modifies ram`bytes
      ensures ram.bytes == Laid(old(ram.bytes), s, data)
    {
      hide Patch;
      ram.bytes := Patch(ram.bytes, s.vaddr, data[s.offset..s.offset + s.filesz]);
      if s.memsz > s.filesz {
        ram.bytes := Patch(ram.bytes, s.vaddr + s.filesz, seq(s.memsz - s.filesz, _ => 0));
      }
    }

    // ---- leaving the table ----

    /** The row of a pid. */
    method Get(pid: int) returns (i: int)
      ensures i == -1 ==> forall j :: 0 <= j < procs.Length && procs[j].used ==> procs[j].pid != pid
      ensures i != -1 ==> 0 <= i < procs.Length && procs[i].used && procs[i].pid == pid
      ensures i != -1 ==> forall j :: 0 <= j < i && procs[j].used ==> procs[j].pid != pid
    {
      for k := 0 to procs.Length
        invariant forall j :: 0 <= j < k && procs[j].used ==> procs[j].pid != pid
      {
        if procs[k].used && procs[k].pid == pid {
          return k;
        }
      }
      return -1;
    }

    /** Gives up the row and the pages of a zombie. */
    method Reap(pid: int) returns (r: int)
      requires Mem() && PidsOk(procs[..], nextPid) && pid > 0
      modifies ram`bytes, procs, pm.cells
      ensures Mem() && |ram.bytes| == |old(ram.bytes)|
      ensures Survive(l, old(ram.bytes), old(procs[..]), ram.bytes, procs[..])
      ensures r == 0 <==>
        exists i :: 0 <= i < procs.Length && old(procs[i].used && procs[i].pid == pid && procs[i].state == Zombie)
      ensures r == 0 || r == -1
      ensures r == -1 ==> ram.bytes == old(ram.bytes) && procs[..] == old(procs[..]) && pm.Bits() == old(pm.Bits())
      ensures
        forall i ::
          0 <= i < procs.Length && old(procs[i].used && procs[i].pid == pid && procs[i].state == Zombie) ==>
            && procs[..] == old(procs[..])[i := Dropped(old(procs[i]))]
            && pm.Bits() == Reaped(old(pm.Bits()), old(procs[i]))
    {
      hide MemOk, Survive, Patch, Size, Layout.Addr, WithRun, PageMap.Bits, Poisoned, Unowned;
      ghost var m0, ps0, bits0 := ram.bytes, procs[..], pm.Bits();
      SurviveSelf(l, ram.bytes, procs[..]);
      var i := Get(pid);
      if i == -1 {
        return -1;
      }
      var p := procs[i];
      if p.state != Zombie {
        return -1;
      }
      ghost var ps' := procs[..][i := Dropped(p)];
      DropRow(l, ram.bytes, pm.Bits(), procs[..], i);
      if p.shadow.Some? {
        ReturnSurvive(l, m0, ps0, ram.bytes, pm.Bits(), ps', p.shadow.value, p.pages);
        FreePages(p.shadow.value, p.pages);
      }
      if p.ustack.Some? {
        ReturnSurvive(l, m0, ps0, ram.bytes, pm.Bits(), ps', p.ustack.value, p.ustackPages);
        FreePages(p.ustack.value, p.ustackPages);
      }
      if p.kstack.Some? {
        ReturnSurvive(l, m0, ps0, ram.bytes, pm.Bits(), ps', p.kstack.value, KSTACK_PAGES);
        FreePages(p.kstack.value, KSTACK_PAGES);
      }
      procs[i] := p.(used := false);
      assert procs[..] == ps';
      r := 0;
    }

    /** Makes a process a zombie after killing and reaping everything under it. */
    method KillOne(i: nat)
      requires Mem() && PidsOk(procs[..], nextPid) && i < procs.Length
      modifies ram`bytes, procs, pm.cells
      ensures Mem() && PidsOk(procs[..], nextPid) && |ram.bytes| == |old(ram.bytes)|
      ensures Survive(l, old(ram.bytes), old(procs[..]), ram.bytes, procs[..])
      ensures
        var p := old(procs[i]);
        if p.used && p.pid > 1 && p.state != Zombie then KilledAll(old(procs[..]), procs[..], i)
        else ram.bytes == old(ram.bytes) && procs[..] == old(procs[..]) && pm.Bits() == old(pm.Bits())
      ensures FreedBy(old(pm.Bits()), old(procs[..]), pm.Bits(), procs[..]) && FewerRows(old(procs[..]), procs[..])
      decreases nextPid - procs[i].pid
    {
      hide MemOk, Survive, Under, Done, KilledPart, KilledAll, PageMap.Bits, Reaped, PidsOk, RowOk, FreedBy, FewerRows;
      ghost var m0, ps0, bits0 := ram.bytes, procs[..], pm.Bits();
      SurviveSelf(l, ram.bytes, procs[..]);
      FreedNothing(bits0, ps0);
      var p := procs[i];
      if !p.used || p.pid <= 1 {
        return;
      }
      if p.state == Zombie {
        return;
      }
      NothingKilled(ps0, i);
      for k := 0 to procs.Length
        invariant Mem() && PidsOk(procs[..], nextPid) && |ram.bytes| == |m0|
        invariant Survive(l, m0, ps0, ram.bytes, procs[..])
        invariant KilledPart(ps0, procs[..], i, k) && FreedBy(bits0, ps0, pm.Bits(), procs[..])
        invariant FewerRows(ps0, procs[..])
      {
        ghost var m1, ps1, bits1 := ram.bytes, procs[..], pm.Bits();
        ChildFirst(ps0, ps1, nextPid, i, k);
        if procs[k].used && procs[k].ppid == p.pid {
          var cpid := procs[k].pid;
          KillOne(k);
          ghost var m2, ps2, bits2 := ram.bytes, procs[..], pm.Bits();
          KilledSelf(ps1, ps2, k);
          var _ := Reap(cpid);
          ReapFrees(bits2, ps2, k);
          FreedTrans(bits0, ps0, bits1, ps1, bits2, ps2);
          FreedTrans(bits0, ps0, bits2, ps2, pm.Bits(), procs[..]);
          ChildGone(ps0, ps1, ps2, nextPid, i, k, Dropped(ps2[k]));
          PidsDropped(ps2, nextPid, k);
          SurviveTrans(l, m0, ps0, m1, ps1, m2, ps2);
          SurviveTrans(l, m0, ps0, m2, ps2, ram.bytes, procs[..]);
        } else {
          NotChild(ps0, ps1, i, k);
        }
      }
      SelfUnchanged(ps0, procs[..], i);
      KilledLast(ps0, procs[..], nextPid, i);
      Dying(l, ram.bytes, pm.Bits(), procs[..], i, Killed(p));
      PidsKilled(procs[..], nextPid, i);
      SurviveTrans(l, m0, ps0, ram.bytes, procs[..], ram.bytes, procs[..][i := Killed(p)]);
      FreedLast(bits0, ps0, pm.Bits(), procs[..], i, Killed(p));
      procs[i] := p.(exitCode := 137, state := Zombie, frame := None);
    }

    /** Kills another process: 0, or -1 if there is none to kill. */
    method Kill(pid: int) returns (r: int)
      requires Valid()
      modifies ram`bytes, procs, pm.cells
      ensures Mem() && |ram.bytes| == |old(ram.bytes)|
      ensures Survive(l, old(ram.bytes), old(procs[..]), ram.bytes, procs[..])
      ensures Valid() <==> r == -1 || !InLine(old(procs[..]), stack, pid)
      ensures Valid() ==> forall m :: 0 <= m < |stack + [current]| ==>
        procs[(stack + [current])[m]] == old(procs[..])[(stack + [current])[m]]
      ensures current < procs.Length && (!Valid() ==> !procs[current].used)
      ensures r == -1 <==> pid <= 1 || pid == old(procs[current].pid) || !HasPid(old(procs[..]), pid)
      ensures r == 0 || r == -1
      ensures forall i :: 0 <= i < procs.Length && old(procs[i].used && procs[i].pid == pid) && r == 0 ==>
        if old(procs[i].state) == Zombie then procs[..] == old(procs[..]) else KilledAll(old(procs[..]), procs[..], i)
      ensures forall i :: 0 <= i < procs.Length && old(procs[i].used && procs[i].pid == pid) && r == 0 ==>
        && procs[i].used && procs[i].pid == pid && procs[i].state == Zombie
        && procs[i].exitCode == if old(procs[i].state) == Zombie then old(procs[i].exitCode) else 137
      ensures r == -1 ==> procs[..] == old(procs[..]) && ram.bytes == old(ram.bytes)
      ensures current < procs.Length && KilledFrom(old(Now()), Now(), pid) && PidsOk(procs[..], nextPid)
    {
      hide MemOk, Survive, Under, KilledAll, PageMap.Bits, PidsOk, LineOk, OneRuns, FreedBy, FewerRows;
      ghost var ps0, line := procs[..], stack + [current];
      SurviveSelf(l, ram.bytes, procs[..]);
      LineIn(ps0, line);
      LineSplit(ps0, stack, current, pid);
      var i := Get(pid);
      if i == -1 || pid <= 1 {
        return -1;
      }
      if pid == procs[current].pid {
        return -1;
      }
      OneRow(ps0, nextPid, i, pid);
      assert HasPid(ps0, pid);
      if procs[i].state == Zombie {
        return 0;
      }
      KillOne(i);
      KilledSelf(ps0, procs[..], i);
      if InLine(ps0, stack, pid) {
        KilledRunning(ps0, procs[..], nextPid, stack, current, pid, i);
      } else {
        KilledLine(ps0, procs[..], nextPid, line, i);
      }
      r := 0;
    }

    // ---- running and waiting ----

    /**
     * Runs a process until it leaves or yields: 0 and where it goes on, -1 at the nesting limit, -2 if it cannot be
     * brought in. Those that wait stay a line of parents if and only if it is a child of the one that ran, or does not
     * run.
     */
    method RunBlocking(i: nat) returns (code: int, how: Entry)
      requires Valid() && i < procs.Length && Real(procs[i]) && procs[i].state != Zombie
      modifies ram`bytes, this`current, this`stack, this`fgPid, procs, pm.cells
      ensures current < procs.Length && old(current) < procs.Length
      ensures Valid() <==> code == -1 || (if code == 0 then old(procs[i].ppid == procs[current].pid)
                                          else i != old(current))
      ensures Mem() && |ram.bytes| == |old(ram.bytes)|
      ensures SameImages(l, old(ram.bytes), old(procs[..]), ram.bytes, procs[..])
      ensures Survive(l, old(ram.bytes), old(procs[..]), ram.bytes, procs[..])
      ensures code == 0 || code == -1 || code == -2
      ensures code == -1 <==> |old(stack)| == BLOCK_MAX
      ensures code == -1 ==> ram.bytes == old(ram.bytes) && procs[..] == old(procs[..]) && fgPid == old(fgPid)
      ensures code == -2 <==>
        |old(stack)| < BLOCK_MAX && old(procs[i].evicted) && !Comes(old(pm.Bits()), old(procs[..]), i)
      ensures Now() == RunFrom(old(Now()), i) && PidsOk(procs[..], nextPid)
      ensures code != 0 ==> stack == old(stack) && current == old(current)
      ensures code == -2 ==>
        Swapped(old(procs[..])[i := old(procs[i]).(state := Ready, started := true)], procs[..]) && procs[i].evicted
      ensures code == -2 ==> CannotBringIn(procs[..], pm.Bits(), i)
      ensures code == 0 ==>
        && stack == old(stack) + [old(current)] && current == i && !procs[i].evicted && fgPid == procs[i].pid
        && Swapped(Entered(old(procs[..]), old(current), i), procs[..]) && how == EntryOf(old(procs[i]))
    {
      hide MemOk, SameImages, Survive, Swapped, PageMap.Bits, NoRoom, Overlaps, TableOk, Alive, CannotBringIn, Handed,
           EntryOf, BroughtIn, Comes;
      how := Jump(0, 0, 0);
      ghost var m0, ps0, bits0, line := ram.bytes, procs[..], pm.Bits(), stack + [current];
      Nothing(l, ram.bytes, bits0, ps0);
      SurviveSelf(l, ram.bytes, ps0);
      CurrentFacts(ps0, nextPid, line, i);
      PidsOf(ps0, nextPid, line);
      if |stack| >= BLOCK_MAX {
        return -1, how;
      }
      how := EntryOf(procs[i]);
      var prev := current;
      fgPid := procs[i].pid;
      BringIn(prev, i);
      ghost var m2, ps2 := ram.bytes, procs[..];
      if procs[i].evicted {
        BackMem(l, m0, ps0, m2, pm.Bits(), ps2, prev, i);
        BackTable(ps0, HandedBack(ps2, prev, i), nextPid, line, prev, i);
        procs[prev] := procs[prev].(state := Running);
        procs[i] := procs[i].(state := Ready);
        assert procs[..] == HandedBack(ps2, prev, i);
        assert BroughtIn(bits0, Handed(ps0, prev, i), i) == Plan(pm.Bits(), ps2);
        return -2, how;
      }
      PushMem(l, m0, ps0, m2, pm.Bits(), ps2, prev, i);
      PushTable(ps0, ps2[i := ps2[i].(frame := None)], nextPid, line, prev, i);
      ghost var was := Handed(ps0, prev, i);
      assert BroughtIn(bits0, was, i) == Plan(pm.Bits(), ps2);
      procs[i] := procs[i].(frame := None);
      assert procs[..] == ps2[i := ps2[i].(frame := None)];
      current, stack := i, stack + [prev];
      code := 0;
    }

    /**
     * Gives control back to the process that waits: pops it, makes it the running one and brings its image in if
     * possible.
     */
    method ReturnToKernel()
      requires Mem() && |stack| > 0 && stack[|stack| - 1] < procs.Length
      requires procs[stack[|stack| - 1]].used && procs[stack[|stack| - 1]].state != Zombie
      modifies ram`bytes, this`current, this`stack, this`fgPid, procs, pm.cells
      ensures Mem() && |ram.bytes| == |old(ram.bytes)|
      ensures SameImages(l, old(ram.bytes), old(procs[..]), ram.bytes, procs[..])
      ensures current == old(stack[|stack| - 1]) && stack == old(stack[..|stack| - 1]) && fgPid == procs[current].pid
      ensures Swapped(old(procs[..])[current := old(procs[stack[|stack| - 1]]).(state := Running)], procs[..])
      ensures procs[current].evicted ==> CannotBringIn(procs[..], pm.Bits(), current)
      ensures !procs[current].evicted <==>
        old(!procs[stack[|stack| - 1]].evicted) || Comes(old(pm.Bits()), old(procs[..]), current)
      ensures Plan(pm.Bits(), procs[..]) == BackPlan(old(pm.Bits()), old(procs[..]), current)
    {
      hide MemOk, SameImages, Swapped, PageMap.Bits, NoRoom, Overlaps, Alive, BroughtIn, Comes;
      ghost var m0, ps0, bits0 := ram.bytes, procs[..], pm.Bits();
      var parent := stack[|stack| - 1];
      stack := stack[..|stack| - 1];
      current := parent;
      fgPid := procs[parent].pid;
      procs[parent] := procs[parent].(state := Running);
      ghost var ps1 := ps0[parent := ps0[parent].(state := Running)];
      assert procs[..] == ps1;
      RowsAlike(l, m0, bits0, ps0, ps1);
      ComesAlike(bits0, ps0, ps1, parent);
      EnsureResident(parent);
      StaysRows(ps1, procs[..]);
      SameTrans(l, m0, ps0, m0, ps1, ram.bytes, procs[..]);
    }

    /** The running process becomes a zombie and whoever waits runs. */
    method Depart(code: int)
      requires Valid() && procs[current].pid != 1
      modifies ram`bytes, this`current, this`stack, this`fgPid, procs, pm.cells
      ensures Mem() && TableOk(procs[..], nextPid, stack + [current]) && |stack| <= BLOCK_MAX && current < procs.Length
      ensures forall m :: 0 <= m < |stack| ==> stack[m] < procs.Length
      ensures |ram.bytes| == |old(ram.bytes)| && Survive(l, old(ram.bytes), old(procs[..]), ram.bytes, procs[..])
      ensures old(current) < procs.Length && Returned(old(stack), old(current), stack, current, fgPid, procs[..])
      ensures procs[old(current)] == Ended(old(procs[current]), code)
      ensures OthersStay(old(procs[..]), procs[..], old(current), current)
      ensures procs[current].evicted ==> CannotBringIn(procs[..], pm.Bits(), current)
      ensures Plan(pm.Bits(), procs[..])
        == BackPlan(old(pm.Bits()), old(procs[..])[old(current) := Ended(old(procs[current]), code)], current)
      ensures Resident(old(pm.Bits()), old(procs[..])[old(current) := old(procs[current]).(state := Zombie)], current,
                       procs[current])
    {
      hide MemOk, SameImages, Swapped, Survive, PageMap.Bits, NoRoom, Overlaps, TableOk, CannotBringIn, BackPlan, Comes;
      ghost var m0, ps0, bits0, line := ram.bytes, procs[..], pm.Bits(), stack;
      LineFacts(ps0, nextPid, stack, current);
      var c := current;
      procs[c] := procs[c].(exitCode := code, state := Zombie, frame := None);
      ghost var ps1 := ps0[c := Ended(ps0[c], code)];
      assert procs[..] == ps1;
      Dying(l, m0, bits0, ps0, c, ps1[c]);
      ComesAlike(bits0, ps0[c := ps0[c].(state := Zombie)], ps1, stack[|stack| - 1]);
      ReturnToKernel();
      LeftTable(l, m0, ps0, ps1, ram.bytes, procs[..], nextPid, line, current, c);
    }

    /** The running process leaves; whoever waited for it gets its pid and exit code and reaps it. */
    method Exit(code: int) returns (pid: int, status: int)
      requires Valid()
      modifies ram`bytes, this`current, this`stack, this`fgPid, procs, pm.cells
      ensures Valid() && |ram.bytes| == |old(ram.bytes)|
      ensures Survive(l, old(ram.bytes), old(procs[..]), ram.bytes, procs[..])
      ensures old(procs[current].pid) == 1 ==>
        ram.bytes == old(ram.bytes) && procs[..] == old(procs[..]) && current == old(current) && stack == old(stack)
      ensures old(procs[current].pid) != 1 ==>
        && old(current) < procs.Length && Returned(old(stack), old(current), stack, current, fgPid, procs[..])
        && pid == old(procs[current].pid) && status == code && !procs[old(current)].used
        && OthersStay(old(procs[..]), procs[..], old(current), current)
        && (procs[current].evicted ==> CouldNotBringIn(procs[..], pm.Bits(), current, old(procs[current])))
        && Resident(old(pm.Bits()), old(procs[..])[old(current) := old(procs[current]).(state := Zombie)], current,
                    procs[current])
      ensures Now() == LeftFrom(old(Now()), code)
    {
      hide MemOk, SameImages, Survive, PageMap.Bits, NoRoom, Overlaps, TableOk, CannotBringIn, Reaped, CouldNotBringIn,
           BackPlan, Comes, LeftFrom;
      pid, status := 0, 0;
      ghost var m0, ps0 := ram.bytes, procs[..];
      SurviveSelf(l, ram.bytes, procs[..]);
      if procs[current].pid == 1 {
        LeftNot(Now(), code);
        return;
      }
      var c := current;
      Depart(code);
      ghost var m2, ps2, bits2 := ram.bytes, procs[..], pm.Bits();
      pid, status := procs[c].pid, procs[c].exitCode;
      LineLast(ps0, nextPid, old(stack) + [c]);
      PidsOf(ps2, nextPid, stack + [current]);
      LeftIs(old(Now()), code, bits2, ps2);
      var _ := Reap(pid);
      StuckGone(ps2, procs[..], bits2, pm.Bits(), current, c, ps0[c]);
      SurviveTrans(l, m0, ps0, m2, ps2, ram.bytes, procs[..]);
      GoneTable(ps2, nextPid, stack + [current], c);
    }

    /** The running process gives control back until it is waited for again; it will go on just where `frame` says. */
    method YieldToParent(frame: Frame) returns (status: int)
      requires Valid()
      modifies ram`bytes, this`current, this`stack, this`fgPid, procs, pm.cells
      ensures Valid() && |ram.bytes| == |old(ram.bytes)|
      ensures Survive(l, old(ram.bytes), old(procs[..]), ram.bytes, procs[..])
      ensures old(stack) == [] ==>
        ram.bytes == old(ram.bytes) && procs[..] == old(procs[..]) && current == old(current) && stack == []
      ensures old(stack) != [] ==>
        && old(current) < procs.Length && Returned(old(stack), old(current), stack, current, fgPid, procs[..])
        && status == -2 && OthersStay(old(procs[..]), procs[..], old(current), current)
        && procs[old(current)].state == Ready && EntryOf(procs[old(current)]) == Resume(frame)
        && procs[old(current)].eip == frame[12] && procs[old(current)].esp == frame[15]
        && Alive(procs[old(current)]) == old(Alive(procs[current]))
        && procs[old(current)].pid == old(procs[current].pid)
        && (procs[current].evicted ==> CannotBringIn(procs[..], pm.Bits(), current))
        && Resident(old(pm.Bits()), old(procs[..]), current, procs[current])
      ensures Now() == YieldedFrom(old(Now()), frame)
    {
      hide MemOk, SameImages, Swapped, Survive, PageMap.Bits, NoRoom, Overlaps, TableOk, CannotBringIn, BackPlan, Comes;
      status := 0;
      ghost var m0, ps0, bits0 := ram.bytes, procs[..], pm.Bits();
      SurviveSelf(l, ram.bytes, procs[..]);
      if stack == [] {
        return;
      }
      LineFacts(ps0, nextPid, stack, current);
      var c := current;
      procs[c] := procs[c].(eip := frame[12], esp := frame[15], eax := frame[7], frame := Some(frame), state := Ready);
      ghost var line, ps1 := stack, ps0[c := Yielded(ps0[c], frame)];
      assert procs[..] == ps1;
      RowsAlike(l, m0, bits0, ps0, ps1);
      SameSurvive(l, m0, ps0, ps1);
      ComesAlike(bits0, ps0, ps1, stack[|stack| - 1]);
      ReturnToKernel();
      LeftTable(l, m0, ps0, ps1, ram.bytes, procs[..], nextPid, line, current, c);
      assert frame[7 := frame[7]] == frame;
      status := -2;
    }

    /** Waits for a process: a zombie is reaped at once, another one is run. */
    method Wait(pid: int) returns (w: Waited)
      requires Valid()
      modifies ram`bytes, this`current, this`stack, this`fgPid, procs, pm.cells
      ensures current < procs.Length && old(current) < procs.Length
      ensures w.NoChild? || w.Got? ==> Valid()
      ensures w.Switched? ==>
        (Valid() <==> w.child < procs.Length && old(procs[..])[w.child].ppid == old(procs[current].pid))
      ensures w.NotYet? ==> (Valid() <==> w.child != old(current) || |old(stack)| == BLOCK_MAX)
      ensures Mem() && |ram.bytes| == |old(ram.bytes)|
      ensures Survive(l, old(ram.bytes), old(procs[..]), ram.bytes, procs[..])
      ensures w.NoChild? <==> forall j :: 0 <= j < procs.Length ==> !WaitsFor(old(procs[..]), old(current), pid, j)
      ensures w.NoChild? ==> ram.bytes == old(ram.bytes) && procs[..] == old(procs[..])
      ensures w.Got? || w.Switched? || w.NotYet? ==>
        w.child < procs.Length && WaitsFor(old(procs[..]), old(current), pid, w.child)
      ensures !w.NoChild? ==> Target(old(procs[..]), old(current), pid, 0) == Some(w.child)
      ensures w.Got? ==>
        var p := old(procs[..])[w.child];
        && p.state == Zombie && w.pid == p.pid && w.status == p.exitCode
        && procs[..] == old(procs[..])[w.child := Dropped(p)]
        && pm.Bits() == Reaped(old(pm.Bits()), p)
      ensures w.Switched? ==>
        var c := w.child;
        && old(procs[..])[c].state != Zombie && stack == old(stack) + [old(current)] && current == c
        && !procs[c].evicted
        && Swapped(Entered(old(procs[..]), old(current), c), procs[..])
        && w.how == EntryOf(old(procs[..])[c])
      ensures w.NotYet? ==>
        && old(procs[..])[w.child].state != Zombie
        && (|stack| == BLOCK_MAX || CannotBringIn(procs[..], pm.Bits(), w.child))
      ensures w.Switched? || w.NotYet? ==>
        var p := old(procs[..])[w.child];
        w.NotYet? <==> |old(stack)| == BLOCK_MAX || (p.evicted && !Comes(old(pm.Bits()), old(procs[..]), w.child))
      ensures !w.Switched? ==> stack == old(stack) && current == old(current)
      ensures Now() == WaitedFrom(old(Now()), pid) && PidsOk(procs[..], nextPid)
    {
      hide MemOk, SameImages, Swapped, Survive, PageMap.Bits, TableOk, Alive, CannotBringIn, Entered, Reaped, Comes,
           RunFrom, Target;
      ghost var m0, ps0, bits0, line := ram.bytes, procs[..], pm.Bits(), stack + [current];
      SurviveSelf(l, ram.bytes, procs[..]);
      PidsOf(ps0, nextPid, line);
      var c := FindChild(pid);
      if c == -1 {
        return NoChild;
      }
      WaitFacts(ps0, nextPid, line, current, pid, c);
      if procs[c].state != Zombie {
        var code, how := RunBlocking(c);
        if code == 0 {
          return Switched(c, how);
        }
        return NotYet(c);
      }
      var status := procs[c].exitCode;
      var cpid := procs[c].pid;
      var _ := Reap(cpid);
      GoneTable(ps0, nextPid, line, c);
      PidsOf(procs[..], nextPid, line);
      w := Got(c, cpid, status);
    }

    /** The child a wait is about: the one with that pid, or the first one if the pid is not positive. */
    method FindChild(pid: int) returns (c: int)
      requires current < procs.Length
      ensures c == -1 ==> forall j :: 0 <= j < procs.Length ==> !WaitsFor(procs[..], current, pid, j)
      ensures c != -1 ==> 0 <= c < procs.Length && WaitsFor(procs[..], current, pid, c)
      ensures Target(procs[..], current, pid, 0) == if c == -1 then None else Some(c)
    {
      if pid > 0 {
        c := Get(pid);
        TargetIs(procs[..], current, pid, if c == -1 then procs.Length else c, 0);
        return;
      }
      for i := 0 to procs.Length
        invariant forall j :: 0 <= j < i ==> !WaitsFor(procs[..], current, pid, j)
      {
        if procs[i].used && procs[i].ppid == procs[current].pid && procs[i].state in {Ready, Running, Zombie} {
          TargetIs(procs[..], current, pid, i, 0);
          return i;
        }
      }
      TargetIs(procs[..], current, pid, procs.Length, 0);
      return -1;
    }

    /** The running process stores a byte at an address of its image. */
    method Store(a: nat, v: byte)
      requires Valid() && Alive(procs[current])
      requires procs[current].image <= a < procs[current].image + Size(procs[current].pages)
      modifies ram`bytes
      ensures a < |old(ram.bytes)| && ram.bytes == old(ram.bytes)[a := v]
      ensures Valid()
      ensures forall j :: 0 <= j < procs.Length && Alive(procs[j]) && !At(procs[..], j, a) ==>
        Img(l, ram.bytes, procs[j]) == Img(l, old(ram.bytes), procs[j])
      ensures forall j :: 0 <= j < procs.Length && At(procs[..], j, a) ==>
        && a - procs[j].image < |Img(l, old(ram.bytes), procs[j])|
        && Img(l, ram.bytes, procs[j]) == Img(l, old(ram.bytes), procs[j])[a - procs[j].image := v]
    {
      hide TableOk, Size, PageMap.Bits;
      StoreFrame(l, ram.bytes, pm.Bits(), procs[..], current, a, v);
      ram.bytes := ram.bytes[a := v];
    }

    /** Makes `i` the running one instead of `prev`, and its image resident if that can be done. */
    method BringIn(prev: nat, i: nat)
      requires Mem() && prev < procs.Length && i < procs.Length && Real(procs[i]) && procs[i].state != Zombie
      requires procs[prev].state == Running
      modifies ram`bytes, procs, pm.cells
      ensures Mem() && |ram.bytes| == |old(ram.bytes)|
      ensures SameImages(l, old(ram.bytes), old(procs[..]), ram.bytes, procs[..])
      ensures Swapped(Handed(old(procs[..]), prev, i), procs[..])
      ensures procs[i].evicted ==> CannotBringIn(procs[..], pm.Bits(), i)
      ensures !procs[i].evicted <==> old(!procs[i].evicted) || Comes(old(pm.Bits()), old(procs[..]), i)
      ensures Plan(pm.Bits(), procs[..]) == BroughtIn(old(pm.Bits()), Handed(old(procs[..]), prev, i), i)
    {
      hide MemOk, SameImages, Swapped, PageMap.Bits, NoRoom, Overlaps, Alive, BroughtIn, Comes;
      ghost var m0, ps0, bits0 := ram.bytes, procs[..], pm.Bits();
      procs[prev] := procs[prev].(state := Ready);
      procs[i] := procs[i].(state := Running, started := true);
      ghost var ps1 := Handed(ps0, prev, i);
      assert procs[..] == ps1;
      RowsAlike(l, m0, bits0, ps0, ps1);
      ComesAlike(bits0, ps0, ps1, i);
      EnsureResident(i);
      SameTrans(l, m0, ps0, m0, ps1, ram.bytes, procs[..]);
    }

    // ---- starting ----

    /** Takes pages nobody owns. */
    method TakePages(n: nat) returns (s: Option<nat>)
      requires Mem()
      modifies pm.cells
      ensures Mem() && (s.None? ==> pm.Bits() == old(pm.Bits()) && (n == 0 || NoRoom(pm.Bits(), n)))
      ensures s == FirstFit(old(pm.Bits()), n, 0)
      ensures s.Some? ==>
        && FreeRun(old(pm.Bits()), s.value, n) && pm.Bits() == WithRun(old(pm.Bits()), s.value, n, true)
        && s.value + n <= l.count
        && Unowned(l, procs[..], s.value, n) && n > 0 && l.Addr(s.value) + Size(n) <= l.base
        && OnlyTakes(old(pm.Bits()), procs[..], pm.Bits(), procs[..]) && forall k: nat ::
           s.value <= k < s.value + n ==> Taken(pm.Bits(), k)
    {
      hide MemOk, NoRoom, WithRun, Unowned, Layout.Addr, Size, PageMap.Bits, OnlyTakes, FreeRun, FirstFit;
      ghost var bits0 := pm.Bits();
      s := pm.Alloc(n);
      if s.Some? {
        TakeUnowned(l, ram.bytes, bits0, procs[..], s.value, n);
        TakesRun(bits0, procs[..], s.value, n);
      }
    }

    /** Reads an executable into fresh pages, loads it and gives those pages back. */
    method LoadFile(data: seq<byte>) returns (r: int, entry: nat, image: nat, pages: nat)
      requires Mem() && Linkable(data, |ram.bytes|) && l.base <= USER_LO
      modifies ram`bytes, procs, pm.cells
      ensures Mem() && |ram.bytes| == |old(ram.bytes)| && Swapped(old(procs[..]), procs[..])
      ensures SameImages(l, old(ram.bytes), old(procs[..]), ram.bytes, procs[..])
      ensures r == 0 || r == -1 || r == -2
      ensures r == 0 ==>
        && Loads(data) && entry == Parsed(data).value.entry && image == Linked(data).0 && pages == Linked(data).1
        && InPlace(l, ram.bytes, procs[..], image, pages, Linked(data).2)
      ensures !Spans(data) ==> r == -1 && procs[..] == old(procs[..])
      ensures Loading(r, Plan(pm.Bits(), procs[..])) == LoadPlan(old(pm.Bits()), old(procs[..]), data)
    {
      hide MemOk, SameImages, Swapped, OnlyTakes, Patch, Size, Layout.Addr, NoRoom, WithRun, PageMap.Bits, Unowned,
           Spans, Loads, Linked, FreeRun, SweptOut, RoomFor, FirstFit, SpanOf, PagesFor;
      ghost var m0, ps0 := ram.bytes, procs[..];
      Nothing(l, ram.bytes, pm.Bits(), procs[..]);
      LoadsSpans(data);
      r, entry, image, pages := -1, 0, 0, 0;
      var npages := PagesFor(|data|);
      if npages == 0 {
        npages := 1;
      }
      var file := TakePages(npages);
      if file.None? {
        return;
      }
      var f := file.value;
      FileFits(|data|, npages);
      FileWrite(l, ram.bytes, pm.Bits(), procs[..], f, npages, data);
      ram.bytes := Patch(ram.bytes, l.Addr(f), data);
      ghost var m1, bits1, ps1 := ram.bytes, pm.Bits(), procs[..];
      r, entry, image, pages := ElfLoad(data);
      ghost var m2 := ram.bytes;
      StaysUnowned(l, bits1, ps1, pm.Bits(), procs[..], f, npages);
      ReturnUnowned(l, ram.bytes, pm.Bits(), procs[..], f, npages);
      if r == 0 {
        PlaceKept(l, ram.bytes, pm.Bits(), f, npages, procs[..], image, pages);
      }
      FreePages(f, npages);
      SameTrans(l, m0, ps0, m1, ps1, m2, procs[..]);
      SameTrans(l, m0, ps0, m2, procs[..], ram.bytes, procs[..]);
    }

    /** A blank row for a new process, or -1. */
    method AllocProc() returns (i: int)
      requires Mem() && TableOk(procs[..], nextPid, stack + [current])
      modifies procs
      ensures Mem() && TableOk(procs[..], nextPid, stack + [current])
      ensures procs.Length > 0 && (if i == -1 then procs.Length else i) == FreeRow(old(procs[..]), 1)
      ensures i == -1 ==> procs[..] == old(procs[..]) && forall j :: 1 <= j < procs.Length ==> procs[j].used
      ensures i != -1 ==>
        && 1 <= i < procs.Length && !old(procs[..])[i].used && procs[..] == old(procs[..])[i := BLANK.(used := true)]
        && SameImages(l, ram.bytes, old(procs[..]), ram.bytes, procs[..])
    {
      hide MemOk, TableOk, SameImages, PageMap.Bits, FreeRow;
      LineLast(procs[..], nextPid, stack + [current]);
      var k := 1;
      while k < procs.Length
        invariant 1 <= k <= procs.Length && FreeRow(procs[..], k) == FreeRow(procs[..], 1)
        invariant forall j :: 1 <= j < k && j < procs.Length ==> procs[j].used
        invariant procs[..] == old(procs[..])
      {
        RowNext(procs[..], k);
        if !procs[k].used {
          BlankRow(l, ram.bytes, pm.Bits(), procs[..], nextPid, stack + [current], k);
          procs[k] := BLANK.(used := true);
          return k;
        }
        k := k + 1;
      }
      NoRowLeft(procs[..]);
      return -1;
    }

    /** Starts a program as a child of the running process: its pid, or a negative number. */
    method Spawn(file: Option<seq<byte>>) returns (r: int, ghost row: nat)
      requires Valid() && l.base <= USER_LO && (file.Some? ==> Linkable(file.value, |ram.bytes|))
      modifies ram`bytes, this`nextPid, procs, pm.cells
      ensures Valid() && |ram.bytes| == |old(ram.bytes)|
      ensures row <= procs.Length && KeptBut(l, old(ram.bytes), old(procs[..]), ram.bytes, procs[..], row)
      ensures row < procs.Length ==> !old(procs[..])[row].used
      ensures r > 0 ==>
        && r == old(nextPid) && nextPid == old(nextPid) + 1 && row < procs.Length && file.Some? && Loads(file.value)
        && procs[row].used && procs[row].pid == r && procs[row].ppid == procs[current].pid && procs[row].state == Ready
        && procs[row].ustack.Some? && EntryOf(procs[row])
          == Jump(Parsed(file.value).value.entry, l.Addr(procs[row].ustack.value) + Size(USTACK_PAGES) - 32, 0)
        && procs[row].image == Linked(file.value).0 && procs[row].pages == Linked(file.value).1
        && Alive(procs[row]) && Img(l, ram.bytes, procs[row]) == Linked(file.value).2
        && (procs[current].evicted ==> CannotBringIn(procs[..], pm.Bits(), current))
      ensures current < procs.Length && Spawning(r, row, Plan(pm.Bits(), procs[..]))
        == SpawnPlan(l, old(pm.Bits()), old(procs[..]), current, old(nextPid), file)
      ensures Now() == StartedFrom(l, old(Now()), file)
      ensures !procs[current].evicted <==> RunsOn(l, old(pm.Bits()), old(procs[..]), current, old(nextPid), file)
      ensures r <= 0 ==>
        (r == -1 || r == -2) && nextPid == old(nextPid) && (row < procs.Length ==> procs[row] == BLANK.(used := true))
      ensures file.None? || !Spans(file.value) ==> r == -1 && procs[..] == old(procs[..])
    {
      hide MemOk, TableOk, SameImages, Swapped, KeptBut, Patch, Size, Layout.Addr, NoRoom, WithRun, PageMap.Bits,
           Unowned, Spans, Loads, Linked, InPlace, Img, OnlyTakes, Taken, FreeRun, Overlaps, LoadPlan, StackPlan,
           FreeRow, BroughtIn, Comes;
      ghost var m0, ps0, line := ram.bytes, procs[..], stack + [current];
      row := procs.Length;
      KeptSelf(l, ram.bytes, procs[..], row);
      if file.None? {
        return -1, row;
      }
      var el, entry, image, pages := LoadFile(file.value);
      label loaded:
      SwappedTable(ps0, procs[..], nextPid, line);
      KeptSwapped(l, m0, ps0, m0, ps0, ram.bytes, procs[..], row);
      if el < 0 {
        return el, row;
      }
      ghost var bytes := Linked(file.value).2;
      var i := AllocProc();
      if i == -1 {
        return -1, row;
      }
      row := i;
      KeptBlank(l, m0, ps0, ram.bytes, old@loaded(procs[..]), row);
      PlaceBlank(l, ram.bytes, old@loaded(procs[..]), row, image, pages, bytes);
      var ok := FillRow(i, entry, image, pages, m0, ps0, bytes);
      if !ok {
        return -1, row;
      }
      ghost var m3, ps3 := ram.bytes, procs[..];
      LineLast(ps3, nextPid, line);
      EnsureResident(current);
      SwappedTable(ps3, procs[..], nextPid, line);
      StaysRows(ps3, procs[..]);
      KeptSwapped(l, m0, ps0, m3, ps3, ram.bytes, procs[..], row);
      NewAfter(l, m3, ps3, ram.bytes, procs[..], row, ps3[row]);
      r := procs[i].pid;
    }

    /** Gives a new process its stacks and its row. */
    method FillRow(i: nat, entry: nat, image: nat, pages: nat, ghost m0: seq<byte>, ghost ps0: seq<Proc>,
                   ghost bytes: seq<byte>)
      returns (ok: bool)
      requires Mem() && TableOk(procs[..], nextPid, stack + [current]) && i < procs.Length
      requires procs[i] == BLANK.(used := true)
      requires InPlace(l, ram.bytes, procs[..], image, pages, bytes) && KeptBut(l, m0, ps0, ram.bytes, procs[..], i)
      modifies ram`bytes, this`nextPid, procs, pm.cells
      ensures Mem() && TableOk(procs[..], nextPid, stack + [current]) && |ram.bytes| == |old(ram.bytes)|
      ensures KeptBut(l, m0, ps0, ram.bytes, procs[..], i)
      ensures !ok ==> nextPid == old(nextPid) && procs[..] == old(procs[..])
      ensures ok ==>
        && nextPid == old(nextPid) + 1 && procs[..] == old(procs[..])[i := procs[i]] && current < procs.Length
        && Alive(procs[i]) && Img(l, ram.bytes, procs[i]) == bytes
        && var st := StackPlan(old(pm.Bits()));
           procs[i] == NewProc(old(nextPid), procs[current].pid, entry, image, pages, st.us, st.ks,
                               l.Addr(st.us) + STACK_TOP)
      ensures var st := StackPlan(old(pm.Bits())); ok == st.ok && pm.Bits() == st.bits
    {
      hide MemOk, TableOk, KeptBut, Patch, Size, Layout.Addr, NoRoom, WithRun, PageMap.Bits, Unowned,
           InPlace, Img, OnlyTakes, Taken, FreeRun, FirstFit;
      ghost var ps1, line := procs[..], stack + [current];
      StackRoom();
      LineLast(ps1, nextPid, line);
      var us := TakePages(USTACK_PAGES);
      if us.None? {
        return false;
      }
      HeapPatch(l, m0, ps0, ram.bytes, pm.Bits(), ps1, us.value, USTACK_PAGES, 0, Put32(CANARY), image, pages, bytes,
                i);
      ram.bytes := Patch(ram.bytes, l.Addr(us.value), Put32(CANARY));
      ghost var bits1 := pm.Bits();
      var ks := TakePages(KSTACK_PAGES);
      if ks.None? {
        return false;
      }
      RunsApart(bits1, us.value, USTACK_PAGES, ks.value, KSTACK_PAGES);
      TakenStays(bits1, ps1, pm.Bits(), us.value, USTACK_PAGES);
      var top := Size(USTACK_PAGES) - 32;
      HeapPatch(l, m0, ps0, ram.bytes, pm.Bits(), ps1, us.value, USTACK_PAGES, top, seq(32, _ => 0), image, pages,
                bytes, i);
      ram.bytes := Patch(ram.bytes, l.Addr(us.value) + top, seq(32, _ => 0));
      var q := NewProc(nextPid, procs[current].pid, entry, image, pages, us.value, ks.value, l.Addr(us.value) + top);
      AddRow(l, m0, ps0, ram.bytes, pm.Bits(), ps1, nextPid, line, i, current, q, us.value, ks.value, bytes);
      procs[i] := q;
      nextPid := nextPid + 1;
      assert procs[i] == NewProc(nextPid - 1, procs[current].pid, entry, image, pages, us.value, ks.value,
                                 l.Addr(us.value) + top);
      assert top == STACK_TOP;
      ok := true;
    }

    /** Swaps out every other live image that is where an evicted one belongs. */
    method ClearWay(i: nat) returns (ok: bool)
      requires Mem() && i < procs.Length && Alive(procs[i]) && procs[i].evicted && procs[i].image > 0
      modifies ram`bytes, procs, pm.cells
      ensures Mem() && Swapped(old(procs[..]), procs[..])
      ensures SameImages(l, old(ram.bytes), old(procs[..]), ram.bytes, procs[..])
      ensures |ram.bytes| == |old(ram.bytes)| && procs[i] == old(procs[i])
      ensures ok ==> forall j :: 0 <= j < procs.Length && j != i && Live(procs[j]) ==> !Overlaps(procs[i], procs[j])
      ensures !ok ==> exists j ::
        0 <= j < procs.Length && j != i && Live(procs[j]) && Overlaps(procs[i], procs[j])
          && NoRoom(pm.Bits(), procs[j].pages)
      ensures forall j :: 0 <= j < procs.Length && j != i ==>
        procs[j] == old(procs[j]) || (procs[j].evicted && Live(old(procs[j])) && Overlaps(old(procs[i]), old(procs[j])))
      ensures var p := procs[i];
        Plan(pm.Bits(), procs[..]) == SweptOut(old(pm.Bits()), old(procs[..]), p.image, p.image + Size(p.pages), i, 0)
      ensures ok <==> Comes(old(pm.Bits()), old(procs[..]), i)
    {
      hide MemOk, SameImages, Swapped, OnlyTakes, Patch, Size, Layout.Addr, FreeRun, NoRoom, WithRun, PageMap.Bits,
           Overlaps, SweptOut, RoomFor, FirstFit;
      ghost var m0, ps0, bits0 := ram.bytes, procs[..], pm.Bits();
      Nothing(l, ram.bytes, bits0, ps0);
      var p := procs[i];
      var lo, hi := p.image, p.image + Size(p.pages);
      for k := 0 to procs.Length
        invariant Mem() && Swapped(ps0, procs[..]) && SameImages(l, m0, ps0, ram.bytes, procs[..])
        invariant OnlyTakes(bits0, ps0, pm.Bits(), procs[..])
        invariant |ram.bytes| == |m0| && procs[i] == p
        invariant forall j :: 0 <= j < procs.Length ==>
          procs[j] == ps0[j] || (procs[j].evicted && Live(ps0[j]) && Overlaps(p, ps0[j]))
        invariant forall j :: 0 <= j < k && j != i && Live(procs[j]) ==> !Overlaps(p, procs[j])
        invariant SweptOut(pm.Bits(), procs[..], lo, hi, i, k) == SweptOut(bits0, ps0, lo, hi, i, 0)
        invariant RoomFor(pm.Bits(), procs[..], lo, hi, i, k) == RoomFor(bits0, ps0, lo, hi, i, 0)
      {
        var q := procs[k];
        NoImageAtZero(l, ram.bytes, pm.Bits(), procs[..], k);
        OverlapTest(p, q);
        if !InWay(procs[..], lo, hi, i, k) {
          SweepSkip(pm.Bits(), procs[..], lo, hi, i, k);
        }
        if !q.used || k == i || q.image == 0 {
          continue;
        }
        if q.evicted || q.state == Zombie {
          continue;
        }
        if lo >= q.image + Size(q.pages) || hi <= q.image {
          continue;
        }
        if q.shadow.Some? {
          continue;
        }
        NoPagesNoOverlap(l, ram.bytes, pm.Bits(), procs[..], i, k);
        ghost var m1, bits1, ps1 := ram.bytes, pm.Bits(), procs[..];
        var s := SwapOut(k);
        if s.None? {
          SweepStop(bits1, ps1, lo, hi, i, k);
          return false;
        }
        SweepOne(bits1, ps1, lo, hi, i, k, s.value);
        SwapTrans(l, m0, bits0, ps0, m1, bits1, ps1, ram.bytes, pm.Bits(), procs[..]);
      }
      SweepEnd(pm.Bits(), procs[..], lo, hi, i);
      ok := true;
    }

    /** Brings an evicted image back to its link address, swapping out whoever lives there. */
    method EnsureResident(i: nat)
      requires Mem() && i < procs.Length && procs[i].used && procs[i].state != Zombie
      modifies ram`bytes, procs, pm.cells
      ensures Mem() && Swapped(old(procs[..]), procs[..])
      ensures SameImages(l, old(ram.bytes), old(procs[..]), ram.bytes, procs[..])
      ensures |ram.bytes| == |old(ram.bytes)|
      ensures !procs[i].evicted || exists j ::
        0 <= j < procs.Length && j != i && Live(procs[j]) && Overlaps(procs[i], procs[j])
          && NoRoom(pm.Bits(), procs[j].pages)
      ensures old(!procs[i].evicted) ==>
        ram.bytes == old(ram.bytes) && procs[..] == old(procs[..]) && pm.Bits() == old(pm.Bits())
      ensures Plan(pm.Bits(), procs[..]) == BroughtIn(old(pm.Bits()), old(procs[..]), i)
      ensures !procs[i].evicted <==> old(!procs[i].evicted) || Comes(old(pm.Bits()), old(procs[..]), i)
      ensures forall j :: 0 <= j < procs.Length && j != i ==>
        procs[j] == old(procs[j]) || (procs[j].evicted && Live(old(procs[j])) && Overlaps(old(procs[i]), old(procs[j])))
    {
      hide MemOk, SameImages, Swapped, OnlyTakes, Patch, Size, Layout.Addr, FreeRun, NoRoom, WithRun, PageMap.Bits,
           Overlaps, SweptOut, RoomFor, FirstFit;
      ghost var m0, ps0, bits0 := ram.bytes, procs[..], pm.Bits();
      Nothing(l, ram.bytes, bits0, ps0);
      var p := procs[i];
      EvictedFacts(l, ram.bytes, bits0, ps0, i);
      if p.image == 0 || p.pages == 0 || !p.evicted {
        return;
      }
      if p.shadow.None? {
        return;
      }
      var ok := ClearWay(i);
      if !ok {
        return;
      }
      RestoreStep(l, m0, ps0, ram.bytes, pm.Bits(), procs[..], i, p.shadow.value);
      ram.bytes := Patch(ram.bytes, p.image, ram.bytes[l.Addr(p.shadow.value)..l.Addr(p.shadow.value) + Size(p.pages)]);
      FreePages(p.shadow.value, p.pages);
      procs[i] := p.(shadow := None, evicted := false);
    }
  }

  // ---- loading ----

  /** A file whose segments have a place. */
  ghost predicate Spans(data: seq<byte>) { Parsed(data).Some? && Span(Parsed(data).value.segs).Some? }

  ghost function SpanOf(data: seq<byte>): (nat, nat) {
    if Spans(data) then Span(Parsed(data).value.segs).value else (0, 0)
  }

  /** A file that can be loaded when there is room. */
  ghost predicate Loads(data: seq<byte>) { Spans(data) && AllInFile(Parsed(data).value.segs, data) }

  /** Where a file is linked to, how many pages it takes and what it looks like there. */
  ghost function Linked(data: seq<byte>): (nat, nat, seq<byte>)
    requires Loads(data)
  {
    var segs := Parsed(data).value.segs;
    var (lo, hi) := Span(segs).value;
    SpanHolds(segs, data, lo, hi);
    (lo, PagesFor(hi - lo), Image(segs, data, lo, Size(PagesFor(hi - lo))))
  }

  lemma SizePositive(lo: nat, hi: nat)
    requires lo < hi
    ensures Size(PagesFor(hi - lo)) >= hi - lo && PagesFor(hi - lo) > 0
  {
  }

  lemma PatchAll(b: seq<byte>, p: seq<byte>)
    requires |p| == |b|
    ensures Patch(b, 0, p) == p
  {
  }

  lemma SpanPlace(segs: seq<Seg>, lo: nat, hi: nat)
    requires Span(segs) == Some((lo, hi))
    ensures USER_LO <= lo < hi
  {
    var s :| s in segs && s.typ == LOAD && s.vaddr == lo;
    assert !Misplaced(s);
  }

  lemma EmptyImage(data: seq<byte>, lo: nat, n: nat)
    ensures Fitting([], data, lo, n) && Image([], data, lo, n) == seq(n, _ => 0)
  {
  }

  lemma SegFits(segs: seq<Seg>, data: seq<byte>, lo: nat, hi: nat, i: nat)
    requires Span(segs) == Some((lo, hi)) && i < |segs| && InFile(segs[i], data)
    requires Fitting(segs[..i], data, lo, Size(PagesFor(hi - lo)))
    ensures Fitting(segs[..i + 1], data, lo, Size(PagesFor(hi - lo)))
  {
    assert segs[i] in segs;
  }

  /** Memory with a segment laid into it. */
  function Laid(m: seq<byte>, s: Seg, data: seq<byte>): (m': seq<byte>)
    requires s.filesz <= s.memsz && s.offset + s.filesz <= |data| && s.vaddr + s.memsz <= |m|
    ensures |m'| == |m|
  {
    var m1 := Patch(m, s.vaddr, data[s.offset..s.offset + s.filesz]);
    if s.memsz > s.filesz then Patch(m1, s.vaddr + s.filesz, seq(s.memsz - s.filesz, _ => 0)) else m1
  }

  /** One segment laid into memory is one more segment of the image. */
  lemma SegPlaced(segs: seq<Seg>, data: seq<byte>, lo: nat, n: nat, i: nat, m: seq<byte>)
    requires i < |segs| && lo + n <= |m| && segs[i].typ == LOAD
    requires Fitting(segs[..i + 1], data, lo, n) && Fitting(segs[..i], data, lo, n)
    requires Sub(m, lo, n) == Image(segs[..i], data, lo, n)
    ensures var s := segs[i];
      && lo <= s.vaddr && s.vaddr + s.memsz <= lo + n && s.filesz <= s.memsz && s.offset + s.filesz <= |data|
    ensures |Laid(m, segs[i], data)| == |m|
    ensures SameOutside(m, Laid(m, segs[i], data), lo, lo + n)
    ensures Sub(Laid(m, segs[i], data), lo, n) == Image(segs[..i + 1], data, lo, n)
  {
    hide Sub, Patch, Fitting, SameOutside, Image, SegBytes;
    var s := segs[i];
    OneMoreSeg(segs, data, lo, n, i);
    LaidOver(m, lo, n, s.vaddr, data[s.offset..s.offset + s.filesz], seq(s.memsz - s.filesz, _ => 0));
  }

  /** Two pieces laid into memory one behind the other, seen in a range around them. */
  lemma LaidOver(m: seq<byte>, lo: nat, n: nat, a: nat, p: seq<byte>, q: seq<byte>)
    requires lo + n <= |m| && lo <= a && a + |p| + |q| <= lo + n
    ensures |Sub(m, lo, n)| == n
    ensures var m1 := Patch(m, a, p);
      var m2 := if |q| > 0 then Patch(m1, a + |p|, q) else m1;
      SameOutside(m, m2, lo, lo + n) && Sub(m2, lo, n) == Patch(Sub(m, lo, n), a - lo, p + q)
  {
    hide Sub, Patch, SameOutside;
    var m1 := Patch(m, a, p);
    PatchSub(m, lo, n, a, p);
    PatchSub(m1, lo, n, a + |p|, q);
    PatchTwice(Sub(m, lo, n), a - lo, p, q);
    PatchNothing(m1, a + |p|);
    OutsideTrans(m, m1, Patch(m1, a + |p|, q), lo, lo + n);
  }

  lemma OneMoreSeg(segs: seq<Seg>, data: seq<byte>, lo: nat, n: nat, i: nat)
    requires i < |segs| && segs[i].typ == LOAD && Fitting(segs[..i + 1], data, lo, n) && Fitting(segs[..i], data, lo, n)
    ensures InFile(segs[i], data) && InSpan(segs[i], lo, n)
    ensures Image(segs[..i + 1], data, lo, n) == Patch(Image(segs[..i], data, lo, n), segs[i].vaddr - lo,
                                                       SegBytes(segs[i], data))
    ensures var s := segs[i];
      SegBytes(s, data) == data[s.offset..s.offset + s.filesz] + seq(s.memsz - s.filesz, _ => 0)
  {
    hide Patch;
    var all := segs[..i + 1];
    assert all[|all| - 1] == segs[i] && all[..i] == segs[..i];
  }

  lemma PatchSub(m: seq<byte>, lo: nat, n: nat, a: nat, p: seq<byte>)
    requires lo + n <= |m| && lo <= a && a + |p| <= lo + n
    ensures |Sub(m, lo, n)| == n && Sub(Patch(m, a, p), lo, n) == Patch(Sub(m, lo, n), a - lo, p)
    ensures SameOutside(m, Patch(m, a, p), lo, lo + n)
  {
  }

  lemma PatchTwice(b: seq<byte>, o: nat, p: seq<byte>, q: seq<byte>)
    requires o + |p| + |q| <= |b|
    ensures Patch(Patch(b, o, p), o + |p|, q) == Patch(b, o, p + q)
  {
  }

  lemma PatchNothing(b: seq<byte>, o: nat)
    requires o <= |b|
    ensures Patch(b, o, []) == b
  {
  }

  lemma OutsideTrans(m: seq<byte>, m1: seq<byte>, m2: seq<byte>, a: nat, b: nat)
    requires SameOutside(m, m1, a, b) && SameOutside(m1, m2, a, b)
    ensures SameOutside(m, m2, a, b)
  {
  }

  /** A segment that is not loaded adds nothing. */
  lemma SegSkipped(segs: seq<Seg>, data: seq<byte>, lo: nat, n: nat, i: nat)
    requires i < |segs| && segs[i].typ != LOAD && Fitting(segs[..i + 1], data, lo, n) && Fitting(segs[..i], data, lo, n)
    ensures Image(segs[..i + 1], data, lo, n) == Image(segs[..i], data, lo, n)
  {
    assert segs[..i + 1][..i] == segs[..i];
  }

  /** Images start and end on pages, so what does not meet the span does not meet its last page either. */
  lemma WholePages(l: Layout, m: seq<byte>, bits: seq<bool>, ps: seq<Proc>, lo: nat, hi: nat)
    requires MemOk(l, m, bits, ps) && lo % PAGE == 0 && lo < hi
    requires forall j :: 0 <= j < |ps| && Live(ps[j]) ==> !Meets(ps[j], lo, hi)
    ensures forall j :: 0 <= j < |ps| && Live(ps[j]) ==> !Meets(ps[j], lo, lo + Size(PagesFor(hi - lo)))
  {
    forall j | 0 <= j < |ps| && Live(ps[j]) ensures !Meets(ps[j], lo, lo + Size(PagesFor(hi - lo))) {
      assert RowOk(l, |m|, ps[j]);
      if hi <= ps[j].image {
        NextPage(lo, hi, ps[j].image);
      }
    }
  }

  lemma NextPage(lo: nat, hi: nat, a: nat)
    requires lo % PAGE == 0 && a % PAGE == 0 && lo < hi <= a
    ensures lo + Size(PagesFor(hi - lo)) <= a
  {
    assert a == a / PAGE * PAGE && lo == lo / PAGE * PAGE;
    assert PagesFor(hi - lo) <= a / PAGE - lo / PAGE;
  }

  /** Process 1 runs and has no image. */
  function FirstRows(slots: nat): (ps: seq<Proc>)
    requires slots > 0
    ensures |ps| == slots && forall i :: 0 < i < slots ==> ps[i] == BLANK
  {
    [BLANK.(used := true, pid := 1, state := Running)] + seq(slots - 1, _ => BLANK)
  }

  lemma FirstTable(l: Layout, m: seq<byte>, bits: seq<bool>, ps: seq<Proc>)
    requires l.Valid() && |bits| == l.count && l.base <= |m| && |ps| > 0 && l.lent == map[]
    requires ps == FirstRows(|ps|)
    ensures MemOk(l, m, bits, ps) && TableOk(ps, 2, [0])
  {
  }

  lemma Nothing(l: Layout, m: seq<byte>, bits: seq<bool>, ps: seq<Proc>)
    ensures Swapped(ps, ps) && SameImages(l, m, ps, m, ps) && OnlyTakes(bits, ps, bits, ps)
  {
    hide Owns, Img;
  }

  lemma SwapOne(l: Layout, m: seq<byte>, bits: seq<bool>, ps: seq<Proc>, i: nat, s: nat)
    requires MemOk(l, m, bits, ps) && i < |ps| && Live(ps[i]) && FreeRun(bits, s, ps[i].pages)
    ensures l.Addr(s) + Size(ps[i].pages) <= |m| && ps[i].image + Size(ps[i].pages) <= |m|
    ensures
      var m', ps' := CopiedOut(l, m, ps[i], s), ps[i := Out(ps[i], s)];
      && MemOk(l, m', WithRun(bits, s, ps[i].pages, true), ps') && Swapped(ps, ps') && SameImages(l, m, ps, m', ps')
      && OnlyTakes(bits, ps, WithRun(bits, s, ps[i].pages, true), ps')
  {
    EvictOne(l, m, bits, ps, i, s);
    NoShadow(l, |m|, ps[i]);
    EvictTakes(bits, ps, i, s);
  }

  lemma SwapTrans(l: Layout, m0: seq<byte>, bits0: seq<bool>, ps0: seq<Proc>, m: seq<byte>, bits: seq<bool>,
                  ps: seq<Proc>, m': seq<byte>, bits': seq<bool>, ps': seq<Proc>)
    requires Swapped(ps0, ps) && SameImages(l, m0, ps0, m, ps) && OnlyTakes(bits0, ps0, bits, ps)
    requires Swapped(ps, ps') && SameImages(l, m, ps, m', ps') && OnlyTakes(bits, ps, bits', ps')
    ensures Swapped(ps0, ps') && SameImages(l, m0, ps0, m', ps') && OnlyTakes(bits0, ps0, bits', ps')
  {
    SameTrans(l, m0, ps0, m, ps, m', ps');
    SwappedTrans(ps0, ps, ps');
    TakesTrans(bits0, ps0, bits, ps, bits', ps');
  }

  /** How a process is entered: by a jump, or by finishing the system call in which it yielded. */
  datatype Entry = Jump(eip: int, esp: int, eax: int) | Resume(frame: Frame)

  function EntryOf(p: Proc): Entry {
    if p.frame.Some? then Resume(p.frame.value[7 := p.eax])
    else Jump(if p.eip != 0 then p.eip else p.entry, p.esp, p.eax)
  }

  /** The table when `prev` has handed over to `i`. */
  function Entered(ps: seq<Proc>, prev: nat, i: nat): seq<Proc>
    requires prev < |ps| && i < |ps|
  {
    ps[prev := ps[prev].(state := Ready)][i := ps[i].(state := Running, started := true, frame := None)]
  }

  /** Some image in the way of `i` has nowhere to go. */
  ghost predicate CannotBringIn(ps: seq<Proc>, bits: seq<bool>, i: nat)
    requires i < |ps|
  {
    exists j :: 0 <= j < |ps| && j != i && Live(ps[j]) && Overlaps(ps[i], ps[j]) && NoRoom(bits, ps[j].pages)
  }

  lemma StillCannot(ps: seq<Proc>, ps': seq<Proc>, bits: seq<bool>, i: nat)
    requires i < |ps| == |ps'| && CannotBringIn(ps, bits, i) && forall j :: 0 <= j < |ps| ==> SameRow(ps[j], ps'[j])
    ensures CannotBringIn(ps', bits, i)
  {
    hide NoRoom, Size;
    var j :| 0 <= j < |ps| && j != i && Live(ps[j]) && Overlaps(ps[i], ps[j]) && NoRoom(bits, ps[j].pages);
    assert Live(ps'[j]) && Overlaps(ps'[i], ps'[j]);
  }

  /** Rows that look the same to memory are in the way of the same ones. */
  lemma ComesAlike(bits: seq<bool>, ps: seq<Proc>, ps': seq<Proc>, i: nat)
    requires |ps'| == |ps| && i < |ps| && forall j :: 0 <= j < |ps| ==> SameRow(ps[j], ps'[j])
    ensures Comes(bits, ps', i) == Comes(bits, ps, i)
  {
    hide RoomFor, FirstFit, WithRun, Size;
    RoomAhead(bits, ps, ps', ps[i].image, ps[i].image + Size(ps[i].pages), i, 0);
  }

  /** Row `i` was in memory or could be brought back, if and only if it is in memory now. */
  ghost predicate Resident(bits: seq<bool>, ps: seq<Proc>, i: nat, now: Proc)
    requires i < |ps|
  {
    !now.evicted <==> !ps[i].evicted || Comes(bits, ps, i)
  }

  /** The page map, the table, who runs, who waits and the next pid. */
  datatype Moment = Moment(bits: seq<bool>, ps: seq<Proc>, current: nat, stack: seq<nat>, nextPid: nat)

  /** What running the process in row `i` comes to. */
  function RunFrom(m: Moment, i: nat): Moment
    requires m.current < |m.ps| && i < |m.ps|
  {
    var p := BroughtIn(m.bits, Handed(m.ps, m.current, i), i);
    if |m.stack| >= BLOCK_MAX then m
    else if p.ps[i].evicted then m.(bits := p.bits, ps := HandedBack(p.ps, m.current, i))
    else m.(bits := p.bits, ps := p.ps[i := p.ps[i].(frame := None)], current := i, stack := m.stack + [m.current])
  }

  function Ended(p: Proc, code: int): Proc { p.(exitCode := code, state := Zombie, frame := None) }

  /** ... the running process's leaving. */
  function LeftFrom(m: Moment, code: int): Moment
    requires m.current < |m.ps|
  {
    var c := m.current;
    if m.ps[c].pid == 1 || m.stack == [] || m.stack[|m.stack| - 1] >= |m.ps| then m
    else
      var prev := m.stack[|m.stack| - 1];
      var p := BackPlan(m.bits, m.ps[c := Ended(m.ps[c], code)], prev);
      m.(bits := Reaped(p.bits, p.ps[c]), ps := p.ps[c := Dropped(p.ps[c])], current := prev, stack :=
        m.stack[..|m.stack| - 1])
  }

  lemma LeftIs(m: Moment, code: int, bits: seq<bool>, ps: seq<Proc>)
    requires m.current < |m.ps| && m.ps[m.current].pid != 1 && m.stack != [] && m.stack[|m.stack| - 1] < |m.ps|
    requires Plan(bits, ps) == BackPlan(m.bits, m.ps[m.current := Ended(m.ps[m.current], code)], m.stack[|m.stack| - 1])
    ensures |ps| == |m.ps|
    ensures LeftFrom(m, code) == Moment(Reaped(bits, ps[m.current]), ps[m.current := Dropped(ps[m.current])],
                                        m.stack[|m.stack| - 1], m.stack[..|m.stack| - 1], m.nextPid)
  {
    hide BackPlan, Reaped;
  }

  lemma LeftNot(m: Moment, code: int)
    requires m.current < |m.ps| && m.ps[m.current].pid == 1
    ensures LeftFrom(m, code) == m
  {
  }

  /** ... its yielding. */
  function YieldedFrom(m: Moment, frame: Frame): Moment
    requires m.current < |m.ps|
  {
    if m.stack == [] || m.stack[|m.stack| - 1] >= |m.ps| then m
    else
      var prev := m.stack[|m.stack| - 1];
      var p := YieldPlan(m.bits, m.ps, m.current, prev, frame);
      m.(bits := p.bits, ps := p.ps, current := prev, stack := m.stack[..|m.stack| - 1])
  }

  /** The first row from `k` on that answers a wait. */
  function Target(ps: seq<Proc>, i: nat, pid: int, k: nat): (r: Option<nat>)
    requires i < |ps| && k <= |ps|
    ensures r.Some? ==> k <= r.value < |ps| && WaitsFor(ps, i, pid, r.value)
    decreases |ps| - k
  {
    if k == |ps| then None else if WaitsFor(ps, i, pid, k) then Some(k) else Target(ps, i, pid, k + 1)
  }

  /** What killing comes to: nothing, or the process is a zombie and all under it are gone, with their pages. */
  ghost predicate KilledFrom(m: Moment, m': Moment, pid: int)
    requires m.current < |m.ps|
  {
    if pid <= 1 || pid == m.ps[m.current].pid || (forall i :: 0 <= i < |m.ps| && m.ps[i].used && m.ps[i].pid == pid ==>
      m.ps[i].state == Zombie)
    then m' == m
    else
      && m' == m.(bits := m'.bits, ps := m'.ps) && FreedBy(m.bits, m.ps, m'.bits, m'.ps)
      && forall i :: 0 <= i < |m.ps| && m.ps[i].used && m.ps[i].pid == pid ==> KilledAll(m.ps, m'.ps, i)
  }

  lemma FreedLast(b0: seq<bool>, p0: seq<Proc>, b: seq<bool>, ps: seq<Proc>, i: nat, q: Proc)
    requires FreedBy(b0, p0, b, ps) && FewerRows(p0, ps) && i < |ps| && q == Killed(ps[i])
    ensures FreedBy(b0, p0, b, ps[i := q]) && FewerRows(p0, ps[i := q])
  {
    hide Owns;
    forall k: nat ensures Unfreed(p0, ps[i := q], k) <==> Unfreed(p0, ps, k) {
    }
  }

  lemma {:induction false} TargetIs(ps: seq<Proc>, i: nat, pid: int, c: nat, k: nat)
    requires i < |ps| && k <= c <= |ps| && (c < |ps| ==> WaitsFor(ps, i, pid, c))
    requires forall j :: k <= j < c ==> !WaitsFor(ps, i, pid, j)
    ensures Target(ps, i, pid, k) == if c == |ps| then None else Some(c)
    decreases c - k
  {
    hide WaitsFor;
    if k < c {
      TargetIs(ps, i, pid, c, k + 1);
    }
  }

  /** ... its waiting. */
  function WaitedFrom(m: Moment, pid: int): Moment
    requires m.current < |m.ps|
  {
    match Target(m.ps, m.current, pid, 0)
    case None => m
    case Some(c) =>
      if m.ps[c].state == Zombie then m.(bits := Reaped(m.bits, m.ps[c]), ps := m.ps[c := Dropped(m.ps[c])])
        else RunFrom(m, c)
  }

  /** ... its starting a program. */
  ghost function StartedFrom(l: Layout, m: Moment, file: Option<seq<byte>>): Moment
    requires m.current < |m.ps|
  {
    var s := SpawnPlan(l, m.bits, m.ps, m.current, m.nextPid, file);
    m.(bits := s.plan.bits, ps := s.plan.ps, nextPid := if s.r > 0 then m.nextPid + 1 else m.nextPid)
  }

  /** The page map and the rows when control came back to `i`. */
  function BackPlan(bits: seq<bool>, ps: seq<Proc>, i: nat): (p: Plan)
    requires i < |ps|
    ensures |p.ps| == |ps|
  {
    BroughtIn(bits, ps[i := ps[i].(state := Running)], i)
  }

  /** ... because `c` yielded. */
  function YieldPlan(bits: seq<bool>, ps: seq<Proc>, c: nat, i: nat, frame: Frame): Plan
    requires c < |ps| && i < |ps|
  {
    BackPlan(bits, ps[c := Yielded(ps[c], frame)], i)
  }

  function Yielded(p: Proc, frame: Frame): Proc {
    p.(eip := frame[12], esp := frame[15], eax := frame[7], frame := Some(frame), state := Ready)
  }

  lemma CurrentFacts(ps: seq<Proc>, nextPid: nat, line: seq<nat>, i: nat)
    requires TableOk(ps, nextPid, line) && i < |ps| && Real(ps[i]) && ps[i].state != Zombie
    ensures var prev := line[|line| - 1];
      && prev < |ps| && Real(ps[prev]) && ps[prev].state == Running && (i != prev ==> ps[i].state == Ready)
      && (ps[i].ppid == ps[prev].pid ==> i != prev)
  {
  }

  lemma StaysRows(ps: seq<Proc>, ps': seq<Proc>)
    requires Swapped(ps, ps')
    ensures |ps'| == |ps| && forall j :: 0 <= j < |ps| ==> Stays(ps[j], ps'[j]) && SameId(ps[j], ps'[j])
  {
  }

  lemma AllStay(ps: seq<Proc>, ps': seq<Proc>)
    requires |ps'| == |ps| && forall j :: 0 <= j < |ps| ==> Stays(ps[j], ps'[j])
    ensures Swapped(ps, ps')
  {
  }

  datatype Waited = NoChild | Got(child: nat, pid: int, status: int) | NotYet(child: nat) | Switched(child: nat,
      how: Entry)

  /** Row `j` answers a wait of the process in row `i` for `pid`. */
  predicate WaitsFor(ps: seq<Proc>, i: nat, pid: int, j: nat)
    requires i < |ps| && j < |ps|
  {
    ps[j].used && if pid > 0 then ps[j].pid == pid
      else ps[j].ppid == ps[i].pid && ps[j].state in {Ready, Running, Zombie}
  }

  lemma WaitFacts(ps: seq<Proc>, nextPid: nat, line: seq<nat>, i: nat, pid: int, c: nat)
    requires TableOk(ps, nextPid, line) && i == line[|line| - 1] && i < |ps| && c < |ps| && WaitsFor(ps, i, pid, c)
    ensures Real(ps[c])
  {
  }

  lemma SameSurvive(l: Layout, m: seq<byte>, ps: seq<Proc>, ps1: seq<Proc>)
    requires SameImages(l, m, ps, m, ps1) && forall j :: 0 <= j < |ps| ==> SameRow(ps[j], ps1[j])
    ensures Survive(l, m, ps, m, ps1)
  {
    hide Img;
  }

  /** The image of row `j` is in memory and the address lies in it. */
  predicate At(ps: seq<Proc>, j: nat, a: nat) {
    j < |ps| && Live(ps[j]) && ps[j].image <= a < ps[j].image + Size(ps[j].pages)
  }

  /** A store changes the image that lies at the address in memory, and no other. */
  lemma StoreFrame(l: Layout, m: seq<byte>, bits: seq<bool>, ps: seq<Proc>, i: nat, a: nat, v: byte)
    requires MemOk(l, m, bits, ps) && i < |ps| && Alive(ps[i]) && ps[i].image <= a < ps[i].image + Size(ps[i].pages)
    ensures l.base <= a < |m| && MemOk(l, m[a := v], bits, ps)
    ensures forall j :: 0 <= j < |ps| && Alive(ps[j]) && !At(ps, j, a) ==> Img(l, m[a := v], ps[j]) == Img(l, m, ps[j])
    ensures forall j :: 0 <= j < |ps| && At(ps, j, a) ==>
      a - ps[j].image < |Img(l, m, ps[j])| && Img(l, m[a := v], ps[j]) == Img(l, m, ps[j])[a - ps[j].image := v]
  {
    AboveHeap(l, |m|, ps[i]);
    var m' := m[a := v];
    hide Layout.Addr, Layout.Valid;
    assert SameOutside(m, m', a, a + 1);
    LentAbove(l, m, bits, ps, m', a, a + 1);
    forall j | 0 <= j < |ps| && Alive(ps[j]) && !At(ps, j, a) ensures Img(l, m', ps[j]) == Img(l, m, ps[j]) {
      ShadowInHeap(l, |m|, bits, ps, j);
      UserWrite(l, m, m', ps[j], a, a + 1);
    }
    forall j | 0 <= j < |ps| && At(ps, j, a)
      ensures a - ps[j].image < |Img(l, m, ps[j])| && Img(l, m', ps[j]) == Img(l, m, ps[j])[a - ps[j].image := v]
    {
      ShadowInHeap(l, |m|, bits, ps, j);
      AboveHeap(l, |m|, ps[j]);
    }
    hide MemOk;
  }

  /** At most one image lies at an address. */
  lemma OneAt(ps: seq<Proc>, i: nat, j: nat, a: nat)
    requires ImagesApart(ps) && At(ps, i, a) && At(ps, j, a)
    ensures i == j
  {
    assert i != j ==> !Overlaps(ps[i], ps[j]);
  }

  /** Storing `v` at `a` leaves the images of all but row `i` what they are. */
  ghost predicate KeepsOthers(l: Layout, m: seq<byte>, a: nat, v: byte, ps: seq<Proc>, i: nat)
    requires a < |m|
  {
    forall j :: 0 <= j < |ps| && j != i && Alive(ps[j]) ==> Img(l, m[a := v], ps[j]) == Img(l, m, ps[j])
  }

  /** Stores at an address are private, whatever is stored, if and only if no other image lies there in memory. */
  lemma StorePrivate(l: Layout, m: seq<byte>, bits: seq<bool>, ps: seq<Proc>, i: nat, a: nat)
    requires MemOk(l, m, bits, ps) && i < |ps| && Alive(ps[i]) && ps[i].image <= a < ps[i].image + Size(ps[i].pages)
    ensures a < |m|
    ensures (forall v: byte :: KeepsOthers(l, m, a, v, ps, i)) <==> forall j :: 0 <= j < |ps| && j != i ==>
      !At(ps, j, a)
    ensures !ps[i].evicted ==> forall j :: 0 <= j < |ps| && j != i ==> !At(ps, j, a)
  {
    StoreFrame(l, m, bits, ps, i, a, 0);
    hide Size, Img, Marked, RowsOk, OwnersApart, LentOk;
    forall v: byte | forall j :: 0 <= j < |ps| && j != i ==> !At(ps, j, a) ensures KeepsOthers(l, m, a, v, ps, i) {
      StoreFrame(l, m, bits, ps, i, a, v);
    }
    forall j | 0 <= j < |ps| && j != i && At(ps, j, a)
      ensures ps[i].evicted && exists v: byte :: !KeepsOthers(l, m, a, v, ps, i)
    {
      var v := OtherByte(Img(l, m, ps[j])[a - ps[j].image]);
      StoreFrame(l, m, bits, ps, i, a, v);
      assert Img(l, m[a := v], ps[j])[a - ps[j].image] == v;
      assert !KeepsOthers(l, m, a, v, ps, i);
      if !ps[i].evicted {
        OneAt(ps, i, j, a);
      }
    }
  }

  function OtherByte(b: byte): (v: byte)
    ensures v != b
  {
    if b == 0 then 1 else 0
  }

  lemma TakesRun(bits: seq<bool>, ps: seq<Proc>, s: nat, n: nat)
    requires FreeRun(bits, s, n)
    ensures OnlyTakes(bits, ps, WithRun(bits, s, n, true), ps)
    ensures forall k: nat :: s <= k < s + n ==> Taken(WithRun(bits, s, n, true), k)
  {
    hide Owns;
  }

  // ---- starting, computed beforehand ----

  datatype Loading = Loading(r: int, plan: Plan)

  /** Pages taken while a file is read. */
  function FilePages(n: nat): nat { if PagesFor(n) == 0 then 1 else PagesFor(n) }

  /** What loading a file comes to, and what it does to the page map and the rows. */
  ghost function LoadPlan(bits: seq<bool>, ps: seq<Proc>, data: seq<byte>): Loading {
    var n := FilePages(|data|);
    var f := FirstFit(bits, n, 0);
    if f.None? then Loading(-1, Plan(bits, ps))
    else
      var b1 := WithRun(bits, f.value, n, true);
      if !Spans(data) then Loading(-1, Plan(WithRun(b1, f.value, n, false), ps))
      else
        var (lo, hi) := SpanOf(data);
        var p := SweptOut(b1, ps, lo, hi, |ps|, 0);
        Loading(if !RoomFor(b1, ps, lo, hi, |ps|, 0) then -2 else if Loads(data) then 0 else -1,
                Plan(WithRun(p.bits, f.value, n, false), p.ps))
  }

  /** The first row from `i` on that is not used; their number if there is none. */
  function FreeRow(ps: seq<Proc>, i: nat): (k: nat)
    requires i <= |ps|
    ensures i <= k <= |ps| && (k < |ps| ==> !ps[k].used) && forall j :: i <= j < k ==> ps[j].used
    decreases |ps| - i
  {
    if i == |ps| || !ps[i].used then i else FreeRow(ps, i + 1)
  }

  datatype Stacks = Stacks(ok: bool, us: nat, ks: nat, bits: seq<bool>)

  /** Pages for a user stack and a kernel stack. A user stack stays taken if there is no room for the other. */
  function StackPlan(bits: seq<bool>): Stacks {
    var us := FirstFit(bits, USTACK_PAGES, 0);
    if us.None? then Stacks(false, 0, 0, bits)
    else
      var b1 := WithRun(bits, us.value, USTACK_PAGES, true);
      var ks := FirstFit(b1, KSTACK_PAGES, 0);
      if ks.None? then Stacks(false, us.value, 0, b1)
      else Stacks(true, us.value, ks.value, WithRun(b1, ks.value, KSTACK_PAGES, true))
  }

  const STACK_TOP: nat := Size(USTACK_PAGES) - 32

  datatype Spawning = Spawning(r: int, row: nat, plan: Plan)

  /** A new process and its stacks, before the one that runs is brought back. */
  ghost function SpawnReady(l: Layout, bits: seq<bool>, ps: seq<Proc>, cur: nat, pid: nat,
                            file: Option<seq<byte>>): Spawning
    requires cur < |ps|
  {
    if file.None? then Spawning(-1, |ps|, Plan(bits, ps))
    else
      var load := LoadPlan(bits, ps, file.value);
      var p := load.plan;
      var row := if |p.ps| > 0 then FreeRow(p.ps, 1) else 0;
      if load.r < 0 then Spawning(load.r, |ps|, p)
      else if row >= |p.ps| || cur >= |p.ps| || !Loads(file.value) then Spawning(-1, |ps|, p)
      else
        var ps1 := p.ps[row := BLANK.(used := true)];
        var st := StackPlan(p.bits);
        if !st.ok then Spawning(-1, row, Plan(st.bits, ps1))
        else
          var q := NewProc(pid, ps1[cur].pid, Parsed(file.value).value.entry, Linked(file.value).0,
                           Linked(file.value).1,
                           st.us, st.ks, l.Addr(st.us) + STACK_TOP);
          Spawning(pid, row, Plan(st.bits, ps1[row := q]))
  }

  /** What spawning comes to, and what it does to the page map and the rows. */
  ghost function SpawnPlan(l: Layout, bits: seq<bool>, ps: seq<Proc>, cur: nat, pid: nat,
                           file: Option<seq<byte>>): Spawning
    requires cur < |ps|
  {
    var s := SpawnReady(l, bits, ps, cur, pid, file);
    if s.r > 0 && cur < |s.plan.ps| then s.(plan := BroughtIn(s.plan.bits, s.plan.ps, cur)) else s
  }

  /**
   * After spawning, the one that runs is in memory: it was not swapped out for the new image, or can be brought back.
   */
  ghost predicate RunsOn(l: Layout, bits: seq<bool>, ps: seq<Proc>, cur: nat, pid: nat, file: Option<seq<byte>>)
    requires cur < |ps|
  {
    var s := SpawnReady(l, bits, ps, cur, pid, file);
    cur < |s.plan.ps| && (!s.plan.ps[cur].evicted || (s.r > 0 && Comes(s.plan.bits, s.plan.ps, cur)))
  }

  /** `bytes` lie in memory from `image` on, and no live image is there. */
  ghost predicate InPlace(l: Layout, m: seq<byte>, ps: seq<Proc>, image: nat, pages: nat, bytes: seq<byte>) {
    && Sub(m, image, Size(pages)) == bytes && pages > 0 && l.base <= image && image % PAGE == 0
    && image + Size(pages) <= |m|
    && forall j :: 0 <= j < |ps| && Live(ps[j]) ==> !Meets(ps[j], image, image + Size(pages))
  }

  lemma FileFits(n: nat, npages: nat)
    requires npages >= PagesFor(n)
    ensures n <= Size(npages)
  {
  }

  lemma FileWrite(l: Layout, m: seq<byte>, bits: seq<bool>, ps: seq<Proc>, f: nat, n: nat, data: seq<byte>)
    requires MemOk(l, m, bits, ps) && f + n <= l.count && Unowned(l, ps, f, n) && |data| <= Size(n)
    ensures l.Addr(f) + |data| <= |m| && MemOk(l, Patch(m, l.Addr(f), data), bits, ps)
    ensures SameImages(l, m, ps, Patch(m, l.Addr(f), data), ps)
  {
    RunPlace(l, f, n);
    hide Size, Layout.Addr, Unowned, Patch;
    PatchOutside(m, l.Addr(f), data);
    UnownedWrite(l, m, Patch(m, l.Addr(f), data), bits, ps, f, n);
  }

  /** What was loaded is not touched by giving heap pages back. */
  lemma PlaceKept(l: Layout, m: seq<byte>, bits: seq<bool>, f: nat, n: nat, ps: seq<Proc>, image: nat, pages: nat)
    requires MemOk(l, m, bits, ps) && f + n <= l.count && l.base <= image && image + Size(pages) <= |m|
    ensures l.Addr(f) + Size(n) <= |m| && Sub(Poisoned(l, m, f, n), image, Size(pages)) == Sub(m, image, Size(pages))
  {
    RunPlace(l, f, n);
    hide Size, Layout.Addr, Patch, Sub;
    PatchOutside(m, l.Addr(f), seq(Size(n), _ => POISON));
    SubSame(m, Poisoned(l, m, f, n), l.Addr(f), l.Addr(f) + Size(n), image, Size(pages));
  }

  /** Processes in rows other than `row` are what they were, and so are their images. */
  ghost predicate KeptBut(l: Layout, m: seq<byte>, ps: seq<Proc>, m': seq<byte>, ps': seq<Proc>, row: nat) {
    |ps'| == |ps| &&
    forall j :: 0 <= j < |ps| && j != row ==>
      Stays(ps[j], ps'[j]) && (Alive(ps[j]) ==> Img(l, m', ps'[j]) == Img(l, m, ps[j]))
  }

  const CANARY: nat := 0xDEAD_C0DE

  function NewProc(pid: nat, ppid: nat, entry: nat, image: nat, pages: nat, us: nat, ks: nat, sp: int): Proc {
    BLANK.(used := true, pid := pid, ppid := ppid, state := Ready, entry := entry, image := image, pages := pages,
           ustack := Some(us), ustackPages := USTACK_PAGES, kstack := Some(ks), eip := entry, esp := sp)
  }

  lemma StackRoom()
    ensures Size(USTACK_PAGES) >= 64
  {
  }

  lemma LoadsSpans(data: seq<byte>)
    ensures Loads(data) ==> Spans(data)
  {
  }

  lemma KeptSelf(l: Layout, m: seq<byte>, ps: seq<Proc>, row: nat)
    ensures KeptBut(l, m, ps, m, ps, row)
  {
    hide Img;
  }

  lemma KeptSwapped(l: Layout, m: seq<byte>, ps: seq<Proc>, m1: seq<byte>, ps1: seq<Proc>, m2: seq<byte>,
                    ps2: seq<Proc>, row: nat)
    requires KeptBut(l, m, ps, m1, ps1, row) && Swapped(ps1, ps2) && SameImages(l, m1, ps1, m2, ps2)
    ensures KeptBut(l, m, ps, m2, ps2, row)
  {
    hide Img;
  }

  lemma KeptBlank(l: Layout, m: seq<byte>, ps: seq<Proc>, m1: seq<byte>, ps1: seq<Proc>, row: nat)
    requires KeptBut(l, m, ps, m1, ps1, |ps|) && row < |ps1| && !ps1[row].used
    ensures KeptBut(l, m, ps, m1, ps1[row := BLANK.(used := true)], row) && row < |ps| && !ps[row].used
  {
    hide Img;
  }

  lemma PlaceBlank(l: Layout, m: seq<byte>, ps: seq<Proc>, row: nat, image: nat, pages: nat, bytes: seq<byte>)
    requires InPlace(l, m, ps, image, pages, bytes) && row < |ps|
    ensures InPlace(l, m, ps[row := BLANK.(used := true)], image, pages, bytes)
  {
    hide Meets, Size, Sub;
  }

  lemma LineLast(ps: seq<Proc>, nextPid: nat, line: seq<nat>)
    requires TableOk(ps, nextPid, line)
    ensures line[|line| - 1] < |ps| && Real(ps[line[|line| - 1]]) && ps[line[|line| - 1]].state == Running
    ensures ps[line[|line| - 1]].pid < nextPid
  {
  }

  lemma SwappedTable(ps: seq<Proc>, ps': seq<Proc>, nextPid: nat, line: seq<nat>)
    requires TableOk(ps, nextPid, line) && Swapped(ps, ps')
    ensures TableOk(ps', nextPid, line)
  {
    StaysRows(ps, ps');
    TableAlike(ps, ps', nextPid, line);
  }

  lemma RunsApart(bits: seq<bool>, a: nat, n: nat, b: nat, k: nat)
    requires FreeRun(bits, b, k) && forall x: nat :: a <= x < a + n ==> Taken(bits, x)
    requires n > 0 && k > 0
    ensures a + n <= b || b + k <= a
  {
    var x := if a < b then b else a;
    assert a <= x < a + n ==> Taken(bits, x);
    assert b <= x < b + k ==> !bits[x];
  }

  lemma TakenStays(bits: seq<bool>, ps: seq<Proc>, bits': seq<bool>, s: nat, n: nat)
    requires OnlyTakes(bits, ps, bits', ps) && forall x: nat :: s <= x < s + n ==> Taken(bits, x)
    ensures forall x: nat :: s <= x < s + n ==> Taken(bits', x)
  {
    hide Owns, Taken;
  }

  /** Writing to heap pages nobody owns changes no image, nor what was just loaded. */
  lemma HeapPatch(l: Layout, m0: seq<byte>, ps0: seq<Proc>, m: seq<byte>, bits: seq<bool>, ps: seq<Proc>, s: nat,
                  n: nat, o: nat, p: seq<byte>, image: nat, pages: nat, bytes: seq<byte>, row: nat)
    requires MemOk(l, m, bits, ps) && s + n <= l.count && Unowned(l, ps, s, n) && o + |p| <= Size(n)
    requires InPlace(l, m, ps, image, pages, bytes) && KeptBut(l, m0, ps0, m, ps, row)
    ensures l.Addr(s) + o + |p| <= |m|
    ensures var m' := Patch(m, l.Addr(s) + o, p);
      && |m'| == |m| && MemOk(l, m', bits, ps) && InPlace(l, m', ps, image, pages, bytes)
      && KeptBut(l, m0, ps0, m', ps, row)
  {
    RunPlace(l, s, n);
    Nothing(l, m, bits, ps);
    hide Size, Layout.Addr, Unowned, Patch, KeptBut, Sub, Meets, SameImages, Swapped;
    PatchOutside(m, l.Addr(s) + o, p);
    var m' := Patch(m, l.Addr(s) + o, p);
    Widen(m, m', l.Addr(s) + o, l.Addr(s) + o + |p|, l.Addr(s), l.Addr(s) + Size(n));
    UnownedWrite(l, m, m', bits, ps, s, n);
    SubSame(m, m', l.Addr(s), l.Addr(s) + Size(n), image, Size(pages));
    KeptSwapped(l, m0, ps0, m, ps, m', ps, row);
  }

  lemma Widen(m: seq<byte>, m': seq<byte>, a: nat, b: nat, c: nat, d: nat)
    requires SameOutside(m, m', a, b) && c <= a && b <= d
    ensures SameOutside(m, m', c, d)
  {
  }

  /** The row of a new process: its image is what was loaded, its stacks were taken for it. */
  lemma AddRow(l: Layout, m0: seq<byte>, ps0: seq<Proc>, m: seq<byte>, bits: seq<bool>, ps: seq<Proc>, nextPid: nat,
               line: seq<nat>, row: nat, cur: nat, q: Proc, us: nat, ks: nat, bytes: seq<byte>)
    requires MemOk(l, m, bits, ps) && TableOk(ps, nextPid, line) && row < |ps| && ps[row] == BLANK.(used := true)
    requires cur == line[|line| - 1] && cur < |ps| && KeptBut(l, m0, ps0, m, ps, row)
    requires q == NewProc(nextPid, ps[cur].pid, q.entry, q.image, q.pages, us, ks, q.esp) && ps[cur].pid < nextPid
    requires InPlace(l, m, ps, q.image, q.pages, bytes)
    requires Unowned(l, ps, us, USTACK_PAGES) && Unowned(l, ps, ks, KSTACK_PAGES)
    requires us + USTACK_PAGES <= ks || ks + KSTACK_PAGES <= us
    requires forall x: nat :: us <= x < us + USTACK_PAGES ==> Taken(bits, x)
    requires forall x: nat :: ks <= x < ks + KSTACK_PAGES ==> Taken(bits, x)
    ensures MemOk(l, m, bits, ps[row := q]) && TableOk(ps[row := q], nextPid + 1, line)
    ensures KeptBut(l, m0, ps0, m, ps[row := q], row)
    ensures Img(l, m, q) == bytes && Alive(q)
  {
    AddTable(ps, nextPid, line, row, q);
    hide TableOk, Size, Img;
    assert RowOk(l, |m|, q);
    assert forall k: nat :: Owns(q, k) <==> us <= k < us + USTACK_PAGES || ks <= k < ks + KSTACK_PAGES;
    forall j | 0 <= j < |ps| && Live(ps[j]) ensures !Overlaps(q, ps[j]) && !Overlaps(ps[j], q) {
    }
    assert Img(l, m, q) == bytes by { NewImage(l, m, q); }
    hide RowOk, Owns, Taken, Overlaps;
  }

  lemma NewImage(l: Layout, m: seq<byte>, q: Proc)
    requires !q.evicted
    ensures Img(l, m, q) == Sub(m, q.image, Size(q.pages))
  {
  }

  lemma AddTable(ps: seq<Proc>, nextPid: nat, line: seq<nat>, row: nat, q: Proc)
    requires TableOk(ps, nextPid, line) && row < |ps| && ps[row].pid == 0 && ps[row].state == Free
    requires q.used && q.pid == nextPid && q.ppid < nextPid && q.state == Ready
    ensures TableOk(ps[row := q], nextPid + 1, line)
  {
    var ps' := ps[row := q];
    forall m | 0 <= m < |line| ensures line[m] != row && ps'[line[m]] == ps[line[m]] {
      RealInLine(ps, line, m);
    }
    AddPids(ps, nextPid, row, q);
    hide PidsOk;
  }

  lemma AddPids(ps: seq<Proc>, nextPid: nat, row: nat, q: Proc)
    requires PidsOk(ps, nextPid) && row < |ps| && q.used && q.pid == nextPid && q.ppid < nextPid && q.state == Ready
    ensures PidsOk(ps[row := q], nextPid + 1)
  {
  }

  /** The new process after the caller was brought back in. */
  lemma NewAfter(l: Layout, m: seq<byte>, ps: seq<Proc>, m': seq<byte>, ps': seq<Proc>, row: nat, q: Proc)
    requires Swapped(ps, ps') && SameImages(l, m, ps, m', ps') && row < |ps| && ps[row] == q && Alive(q)
    ensures Stays(q, ps'[row]) && Alive(ps'[row]) && Img(l, m', ps'[row]) == Img(l, m, q)
  {
    hide Img;
  }

  lemma BlankRow(l: Layout, m: seq<byte>, bits: seq<bool>, ps: seq<Proc>, nextPid: nat, line: seq<nat>, k: nat)
    requires MemOk(l, m, bits, ps) && TableOk(ps, nextPid, line) && k < |ps| && !ps[k].used
    ensures var ps' := ps[k := BLANK.(used := true)];
      MemOk(l, m, bits, ps') && TableOk(ps', nextPid, line) && SameImages(l, m, ps, m, ps')
  {
    BlankTable(ps, nextPid, line, k);
    hide TableOk, Img, Size;
    var q := BLANK.(used := true);
    assert RowOk(l, |m|, q) && forall j: nat :: !Owns(q, j);
    hide RowOk, Owns;
  }

  lemma RowNext(ps: seq<Proc>, k: nat)
    requires k < |ps|
    ensures FreeRow(ps, k) == if ps[k].used then FreeRow(ps, k + 1) else k
  {}

  lemma NoRowLeft(ps: seq<Proc>)
    ensures FreeRow(ps, |ps|) == |ps|
  {}

  lemma BlankTable(ps: seq<Proc>, nextPid: nat, line: seq<nat>, k: nat)
    requires TableOk(ps, nextPid, line) && k < |ps| && !ps[k].used
    ensures TableOk(ps[k := BLANK.(used := true)], nextPid, line)
  {
  }

  /** Control went back along the line. */
  ghost predicate Returned(stack: seq<nat>, current: nat, stack': seq<nat>, current': nat, fgPid: nat, ps: seq<Proc>) {
    && |stack| > 0 && stack == stack' + [current'] && current' < |ps| && current' != current
    && ps[current'].state == Running && fgPid == ps[current'].pid
  }

  /** Rows but `c` are what they were, save for where images are, and `now` runs. */
  ghost predicate OthersStay(ps: seq<Proc>, ps': seq<Proc>, c: nat, now: nat) {
    |ps'| == |ps| && forall j :: 0 <= j < |ps| && j != c ==> Stays(if j == now then ps[j].(state := Running)
                                                                   else ps[j], ps'[j])
  }

  lemma LineFacts(ps: seq<Proc>, nextPid: nat, stack: seq<nat>, current: nat)
    requires TableOk(ps, nextPid, stack + [current]) && current < |ps| && (ps[current].pid != 1 || stack != [])
    ensures |stack| > 0 && stack[|stack| - 1] < |ps| && Real(ps[stack[|stack| - 1]])
    ensures ps[stack[|stack| - 1]].state != Zombie
    ensures stack[|stack| - 1] != current && Real(ps[current]) && ps[current].state == Running
  {
    var line := stack + [current];
    assert line[|stack|] == current;
    if |stack| > 0 {
      assert line[|stack| - 1] == stack[|stack| - 1];
      LineIncreases(ps, line, nextPid, |stack| - 1, |stack|);
    }
  }

  /** The table when the running process has left or yielded. */
  lemma LeftTable(l: Layout, m0: seq<byte>, ps: seq<Proc>, ps1: seq<Proc>, m2: seq<byte>, ps2: seq<Proc>, nextPid: nat,
                  line: seq<nat>, prev: nat, c: nat)
    requires TableOk(ps, nextPid, line + [c]) && |line| > 0 && prev == line[|line| - 1] != c && prev < |ps| && c < |ps|
    requires Real(ps[prev])
    requires |ps1| == |ps| && ps1 == ps[c := ps1[c]]
    requires (SameId(ps[c].(state := Zombie), ps1[c]) || SameId(ps[c].(state := Ready), ps1[c]))
    requires Survive(l, m0, ps, m0, ps1) && SameImages(l, m0, ps1, m2, ps2)
    requires Swapped(ps1[prev := ps1[prev].(state := Running)], ps2)
    requires ps[prev].state != Zombie
    ensures |ps2| == |ps| && TableOk(ps2, nextPid, line) && Survive(l, m0, ps, m2, ps2)
    ensures OthersStay(ps, ps2, c, prev) && Stays(ps1[c], ps2[c]) && ps2[prev].state == Running && Real(ps2[prev])
    ensures line[..|line| - 1] + [prev] == line
  {
    hide TableOk, Swapped, SameImages, Survive;
    StaysRows(ps1[prev := ps1[prev].(state := Running)], ps2);
    HandBack(ps, ps2, nextPid, line, prev, c);
    LeftImages(l, m0, ps, ps1, m2, ps2, prev);
  }

  lemma LeftImages(l: Layout, m0: seq<byte>, ps: seq<Proc>, ps1: seq<Proc>, m2: seq<byte>, ps2: seq<Proc>, prev: nat)
    requires |ps1| == |ps| == |ps2| && prev < |ps| && ps1[prev].state != Zombie
    requires Survive(l, m0, ps, m0, ps1) && SameImages(l, m0, ps1, m2, ps2)
    requires forall j :: 0 <= j < |ps| ==> Stays(if j == prev then ps1[j].(state := Running) else ps1[j], ps2[j])
    ensures Survive(l, m0, ps, m2, ps2)
  {
    hide Img;
  }

  lemma PidsOf(ps: seq<Proc>, nextPid: nat, line: seq<nat>)
    requires TableOk(ps, nextPid, line)
    ensures PidsOk(ps, nextPid)
  {
  }

  /** Before the pages of `p` were given back, some image in the way of `i` had nowhere to go. */
  ghost predicate CouldNotBringIn(ps: seq<Proc>, bits: seq<bool>, i: nat, p: Proc)
    requires i < |ps|
  {
    exists b: seq<bool> :: bits == Reaped(b, p) && CannotBringIn(ps, b, i)
  }

  lemma StuckGone(ps: seq<Proc>, ps': seq<Proc>, b: seq<bool>, bits: seq<bool>, i: nat, c: nat, p: Proc)
    requires i < |ps| && c < |ps| && i != c && ps' == ps[c := Dropped(ps[c])] && ps[c].state == Zombie
    requires bits == Reaped(b, ps[c])
    requires ps[c].shadow == p.shadow && ps[c].pages == p.pages && ps[c].ustack == p.ustack
    requires ps[c].ustackPages == p.ustackPages
    requires ps[c].kstack == p.kstack
    ensures CannotBringIn(ps, b, i) ==> CouldNotBringIn(ps', bits, i, p)
  {
    hide NoRoom, Size;
    if CannotBringIn(ps, b, i) {
      var j :| 0 <= j < |ps| && j != i && Live(ps[j]) && Overlaps(ps[i], ps[j]) && NoRoom(b, ps[j].pages);
      assert ps'[j] == ps[j] && ps'[i] == ps[i];
      assert CannotBringIn(ps', b, i);
      assert bits == Reaped(b, p);
    }
  }

  /** Giving up the row of a zombie leaves the line alone. */
  lemma GoneTable(ps: seq<Proc>, nextPid: nat, line: seq<nat>, c: nat)
    requires TableOk(ps, nextPid, line) && c < |ps| && ps[c].state == Zombie
    ensures TableOk(ps[c := Dropped(ps[c])], nextPid, line)
  {
    PidsDropped(ps, nextPid, c);
    hide PidsOk;
  }

  function Handed(ps: seq<Proc>, prev: nat, i: nat): seq<Proc>
    requires prev < |ps| && i < |ps|
  {
    ps[prev := ps[prev].(state := Ready)][i := ps[i].(state := Running, started := true)]
  }

  function HandedBack(ps: seq<Proc>, prev: nat, i: nat): seq<Proc>
    requires prev < |ps| && i < |ps|
  {
    ps[prev := ps[prev].(state := Running)][i := ps[i].(state := Ready)]
  }

  /** Handing over. */
  lemma PushMem(l: Layout, m0: seq<byte>, ps: seq<Proc>, m2: seq<byte>, bits: seq<bool>, ps2: seq<Proc>, prev: nat,
                i: nat)
    requires i < |ps| && prev < |ps| && ps[i].state != Zombie && ps[prev].state == Running
    requires Swapped(Handed(ps, prev, i), ps2)
    requires MemOk(l, m2, bits, ps2) && SameImages(l, m0, ps, m2, ps2)
    ensures |ps2| == |ps|
    ensures var ps3 := ps2[i := ps2[i].(frame := None)];
      && Swapped(Entered(ps, prev, i), ps3) && MemOk(l, m2, bits, ps3) && SameImages(l, m0, ps, m2, ps3)
      && Survive(l, m0, ps, m2, ps3)
      && ps3[i].evicted == ps2[i].evicted && ps3[i].pid == ps[i].pid
  {
    hide Swapped, MemOk, SameImages;
    StaysRows(Handed(ps, prev, i), ps2);
    var ps3 := ps2[i := ps2[i].(frame := None)];
    AllStay(Entered(ps, prev, i), ps3);
    RowsAlike(l, m2, bits, ps2, ps3);
    SameTrans(l, m0, ps, m2, ps2, m2, ps3);
    NoneRevived(l, m0, ps, m2, ps3);
  }

  /** The line is longer by the one that runs, and a line if and only if that is a child. */
  lemma PushTable(ps: seq<Proc>, ps3: seq<Proc>, nextPid: nat, line: seq<nat>, prev: nat, i: nat)
    requires TableOk(ps, nextPid, line) && i < |ps| && Real(ps[i]) && ps[i].state != Zombie && prev == line[|line| - 1]
    requires prev < |ps|
    requires Swapped(Entered(ps, prev, i), ps3)
    ensures TableOk(ps3, nextPid, line + [i]) <==> ps[i].ppid == ps[prev].pid
    ensures PidsOk(ps3, nextPid)
  {
    hide Swapped;
    StaysRows(Entered(ps, prev, i), ps3);
    CurrentFacts(ps, nextPid, line, i);
    PidsAlike(ps, ps3, nextPid);
    hide PidsOk;
    if ps[i].ppid == ps[prev].pid {
      hide TableOk;
      HandOver(ps, ps3, nextPid, line, prev, i);
    } else {
      var line' := line + [i];
      assert line'[|line|] == i && line'[|line| - 1] == prev;
      assert !LineOk(ps3, line');
    }
  }

  lemma NoneRevived(l: Layout, m: seq<byte>, ps: seq<Proc>, m': seq<byte>, ps': seq<Proc>)
    requires SameImages(l, m, ps, m', ps') && forall j :: 0 <= j < |ps| && Alive(ps'[j]) ==> Alive(ps[j])
    ensures Survive(l, m, ps, m', ps')
  {
    hide Img;
  }

  /** Taking the hand-over back. */
  lemma BackMem(l: Layout, m0: seq<byte>, ps: seq<Proc>, m2: seq<byte>, bits: seq<bool>, ps2: seq<Proc>, prev: nat,
                i: nat)
    requires i < |ps| && prev < |ps| && ps[i].state != Zombie && ps[prev].state == Running
    requires Swapped(Handed(ps, prev, i), ps2)
    requires MemOk(l, m2, bits, ps2) && SameImages(l, m0, ps, m2, ps2)
    ensures |ps2| == |ps|
    ensures var ps3 := HandedBack(ps2, prev, i);
      && Swapped(ps[i := ps[i].(state := Ready, started := true)], ps3)
      && MemOk(l, m2, bits, ps3) && SameImages(l, m0, ps, m2, ps3) && Survive(l, m0, ps, m2, ps3)
      && ps3[i].evicted == ps2[i].evicted
      && (CannotBringIn(ps2, bits, i) ==> CannotBringIn(ps3, bits, i))
  {
    hide Swapped, MemOk, SameImages, CannotBringIn;
    StaysRows(Handed(ps, prev, i), ps2);
    var ps3 := HandedBack(ps2, prev, i);
    AllStay(ps[i := ps[i].(state := Ready, started := true)], ps3);
    RowsAlike(l, m2, bits, ps2, ps3);
    SameTrans(l, m0, ps, m2, ps2, m2, ps3);
    NoneRevived(l, m0, ps, m2, ps3);
    if CannotBringIn(ps2, bits, i) {
      StillCannot(ps2, ps3, bits, i);
    }
  }

  /** That leaves the table in order unless a process was to wait for itself: then nobody runs. */
  lemma BackTable(ps: seq<Proc>, ps3: seq<Proc>, nextPid: nat, line: seq<nat>, prev: nat, i: nat)
    requires TableOk(ps, nextPid, line) && i < |ps| && Real(ps[i]) && ps[i].state != Zombie && prev == line[|line| - 1]
    requires prev < |ps|
    requires Swapped(ps[i := ps[i].(state := Ready, started := true)], ps3)
    ensures TableOk(ps3, nextPid, line) <==> i != prev
    ensures PidsOk(ps3, nextPid)
  {
    hide Swapped;
    StaysRows(ps[i := ps[i].(state := Ready, started := true)], ps3);
    CurrentFacts(ps, nextPid, line, i);
    PidsAlike(ps, ps3, nextPid);
    hide PidsOk;
    if i != prev {
      hide TableOk;
      TableAlike(ps, ps3, nextPid, line);
    } else {
      assert ps3[prev].used && ps3[prev].state == Ready;
      assert !OneRuns(ps3, line);
    }
  }

  predicate HasPid(ps: seq<Proc>, pid: int) { exists i :: 0 <= i < |ps| && ps[i].used && ps[i].pid == pid }

  lemma OneRow(ps: seq<Proc>, nextPid: nat, i: nat, pid: int)
    requires PidsOk(ps, nextPid) && i < |ps| && ps[i].used && ps[i].pid == pid && pid > 0
    ensures forall j :: 0 <= j < |ps| && ps[j].used && ps[j].pid == pid ==> j == i
  {
  }

  /** The process waits. */
  predicate InLine(ps: seq<Proc>, stack: seq<nat>, pid: int) {
    exists m :: 0 <= m < |stack| && stack[m] < |ps| && ps[stack[m]].pid == pid
  }

  lemma LineSplit(ps: seq<Proc>, stack: seq<nat>, current: nat, pid: int)
    requires LineOk(ps, stack + [current]) && current < |ps|
    ensures !InLine(ps, stack, pid) && pid != ps[current].pid ==>
      forall m :: 0 <= m < |stack + [current]| ==>
        (stack + [current])[m] < |ps| && ps[(stack + [current])[m]].pid != pid
    ensures InLine(ps, stack, pid) ==>
      exists i :: 0 <= i < |ps| && Real(ps[i]) && ps[i].pid == pid && ps[i].state != Zombie
  {
    var line := stack + [current];
    assert line[|stack|] == current;
    forall m | 0 <= m < |line| && !InLine(ps, stack, pid) && pid != ps[current].pid
      ensures line[m] < |ps| && ps[line[m]].pid != pid
    {
      if m < |stack| {
        assert line[m] == stack[m];
      }
    }
    if m :| 0 <= m < |stack| && stack[m] < |ps| && ps[stack[m]].pid == pid {
      assert line[m] == stack[m];
    }
  }

  /** Whoever waits is there and does not run. */
  lemma WaitsThere(ps: seq<Proc>, nextPid: nat, stack: seq<nat>, current: nat, pid: int)
    requires TableOk(ps, nextPid, stack + [current]) && current < |ps| && InLine(ps, stack, pid)
    ensures HasPid(ps, pid) && pid != ps[current].pid
  {
    var line := stack + [current];
    assert line[|stack|] == current;
    var m :| 0 <= m < |stack| && stack[m] < |ps| && ps[stack[m]].pid == pid;
    assert line[m] == stack[m];
    LineIncreases(ps, line, nextPid, m, |stack|);
    RealInLine(ps, line, m);
  }

  /** Killing a process that waits gives up the row of the one that runs. */
  lemma KilledRunning(ps: seq<Proc>, ps': seq<Proc>, nextPid: nat, stack: seq<nat>, current: nat, pid: int, i: nat)
    requires TableOk(ps, nextPid, stack + [current]) && InLine(ps, stack, pid) && i < |ps| && Real(ps[i])
    requires ps[i].pid == pid
    requires current < |ps| && KilledAll(ps, ps', i)
    ensures |ps'| == |ps| && !ps'[current].used && !TableOk(ps', nextPid, stack + [current])
  {
    var line := stack + [current];
    assert line[|stack|] == current;
    var m :| 0 <= m < |stack| && stack[m] < |ps| && ps[stack[m]].pid == pid;
    assert line[m] == stack[m];
    SamePid(ps, nextPid, stack[m], i);
    LineUnder(ps, line, nextPid, m, |stack|);
    LineIncreases(ps, line, nextPid, m, |stack|);
    hide Under;
  }

  lemma LineIn(ps: seq<Proc>, line: seq<nat>)
    requires LineOk(ps, line)
    ensures forall m :: 0 <= m < |line| ==> line[m] < |ps| && Real(ps[line[m]])
  {
  }

  lemma ChildFirst(ps: seq<Proc>, ps1: seq<Proc>, nextPid: nat, i: nat, k: nat)
    requires PidsOk(ps, nextPid) && i < |ps| && Real(ps[i]) && KilledPart(ps, ps1, i, k) && k < |ps|
    ensures ps[k].used && ps[k].ppid == ps[i].pid ==>
      ps1[k] == ps[k] && Real(ps[k]) && ps[k].pid > ps[i].pid && ps[k].pid < nextPid
    ensures |ps1| == |ps| && ps1[k].used ==> ps1[k] == ps[k]
  {
    if ps[k].used && ps[k].ppid == ps[i].pid {
      ChildWhole(ps, ps1, nextPid, i, k);
    }
  }

  lemma KilledSelf(ps: seq<Proc>, ps': seq<Proc>, k: nat)
    requires k < |ps| && if ps[k].state == Zombie then ps' == ps else KilledAll(ps, ps', k)
    ensures |ps'| == |ps| && ps'[k].state == Zombie && ps'[k].used == ps[k].used && ps'[k].pid == ps[k].pid
    ensures ps'[k].exitCode == if ps[k].state == Zombie then ps[k].exitCode else 137
  {
  }

  lemma SelfUnchanged(ps: seq<Proc>, ps': seq<Proc>, i: nat)
    requires i < |ps| && KilledPart(ps, ps', i, |ps|)
    ensures |ps'| == |ps| && ps'[i] == ps[i]
  {
  }

  lemma PidsDropped(ps: seq<Proc>, nextPid: nat, k: nat)
    requires PidsOk(ps, nextPid) && k < |ps|
    ensures PidsOk(ps[k := Dropped(ps[k])], nextPid)
  {
  }

  lemma PidsKilled(ps: seq<Proc>, nextPid: nat, k: nat)
    requires PidsOk(ps, nextPid) && k < |ps| && Real(ps[k])
    ensures PidsOk(ps[k := Killed(ps[k])], nextPid)
  {
  }

  /** The line and who runs are untouched when a process outside it is killed. */
  lemma KilledLine(ps: seq<Proc>, ps': seq<Proc>, nextPid: nat, line: seq<nat>, i: nat)
    requires TableOk(ps, nextPid, line) && i < |ps| && Real(ps[i]) && ps[i].pid > 1 && KilledAll(ps, ps', i)
    requires forall m :: 0 <= m < |line| ==> line[m] < |ps| && ps[line[m]].pid != ps[i].pid
    ensures LineOk(ps', line) && OneRuns(ps', line)
    ensures forall m :: 0 <= m < |line| ==> line[m] < |ps'| && ps'[line[m]] == ps[line[m]]
  {
    forall m | 0 <= m < |line| ensures ps'[line[m]] == ps[line[m]] {
      LineNotUnder(ps, line, nextPid, i, m);
    }
    hide Under;
  }

  lemma SurviveSelf(l: Layout, m: seq<byte>, ps: seq<Proc>)
    ensures Survive(l, m, ps, m, ps)
  {
    hide Img;
  }

  lemma ReturnSurvive(l: Layout, m0: seq<byte>, ps0: seq<Proc>, m: seq<byte>, bits: seq<bool>, ps: seq<Proc>, s: nat,
                      n: nat)
    requires MemOk(l, m, bits, ps) && s + n <= l.count && Unowned(l, ps, s, n) && Survive(l, m0, ps0, m, ps)
    ensures l.Addr(s) + Size(n) <= |m| && |Poisoned(l, m, s, n)| == |m|
    ensures MemOk(l, Poisoned(l, m, s, n), WithRun(bits, s, n, false), ps)
    ensures Survive(l, m0, ps0, Poisoned(l, m, s, n), ps)
  {
    ReturnUnowned(l, m, bits, ps, s, n);
    hide MemOk, Img, Patch, Size, Layout.Addr, Unowned, WithRun;
  }

  lemma EvictedFacts(l: Layout, m: seq<byte>, bits: seq<bool>, ps: seq<Proc>, i: nat)
    requires MemOk(l, m, bits, ps) && i < |ps|
    ensures ps[i].used && ps[i].evicted ==> ps[i].shadow.Some? && ps[i].pages > 0 && ps[i].image > 0
  {
    assert RowOk(l, |m|, ps[i]);
  }

  lemma OverlapTest(p: Proc, q: Proc)
    ensures Overlaps(p, q) <==> !(p.image >= q.image + Size(q.pages) || p.image + Size(p.pages) <= q.image)
  {
  }

  lemma NoPagesNoOverlap(l: Layout, m: seq<byte>, bits: seq<bool>, ps: seq<Proc>, i: nat, k: nat)
    requires MemOk(l, m, bits, ps) && i < |ps| && k < |ps| && ps[i].used && ps[k].used && ps[i].pages > 0
    requires Overlaps(ps[i], ps[k]) && ps[k].state != Zombie && !ps[k].evicted
    ensures Live(ps[k])
  {
    assert RowOk(l, |m|, ps[i]) && RowOk(l, |m|, ps[k]);
  }

  /** Bringing the image back once nobody is in its place. */
  lemma RestoreStep(l: Layout, m0: seq<byte>, ps0: seq<Proc>, m: seq<byte>, bits: seq<bool>, ps: seq<Proc>, i: nat,
                    s: nat)
    requires MemOk(l, m, bits, ps) && Swapped(ps0, ps) && SameImages(l, m0, ps0, m, ps)
    requires i < |ps| && Alive(ps[i]) && ps[i].evicted && ps[i].shadow == Some(s)
    requires forall j :: 0 <= j < |ps| && j != i && Live(ps[j]) ==> !Overlaps(ps[i], ps[j])
    ensures l.Addr(s) + Size(ps[i].pages) <= |m| && ps[i].image + Size(ps[i].pages) <= |m| && s + ps[i].pages <= l.count
    ensures
      var m1, ps' := CopiedIn(l, m, ps[i], s), ps[i := In(ps[i])];
      var m2 := Poisoned(l, m1, s, ps[i].pages);
      && MemOk(l, m2, WithRun(bits, s, ps[i].pages, false), ps') && Swapped(ps0, ps') && SameImages(l, m0, ps0, m2, ps')
  {
    RestoreOne(l, m, bits, ps, i, s);
    var m1, ps' := CopiedIn(l, m, ps[i], s), ps[i := In(ps[i])];
    var m2 := Poisoned(l, m1, s, ps[i].pages);
    ShadowInHeap(l, |m|, bits, ps, i);
    assert ps[i].pages > 0 ==> InRun(ps[i].shadow, ps[i].pages, s + ps[i].pages - 1);
    hide MemOk, SameImages, Swapped, Overlaps;
    SameTrans(l, m0, ps0, m, ps, m2, ps');
    SwappedTrans(ps0, ps, ps');
  }

  lemma NoImageAtZero(l: Layout, m: seq<byte>, bits: seq<bool>, ps: seq<Proc>, i: nat)
    requires MemOk(l, m, bits, ps) && i < |ps|
    ensures ps[i].image == 0 ==> !Live(ps[i])
    ensures Live(ps[i]) ==> ps[i].shadow == None
  {
    assert RowOk(l, |m|, ps[i]);
  }
}
