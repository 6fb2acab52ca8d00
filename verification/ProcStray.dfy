/** A full heap: a process runs while it is evicted, and what it stores goes into another one's image. */
module ProcStray {
  import opened Wrappers
  import opened Bytes
  import opened Pages
  import opened ProcImages
  import opened ProcPlan
  import opened ProcTable
  import opened ElfFile
  import opened ProcKernel

  /** An executable of one page whose image takes more than one. */
  ghost predicate Small(file: seq<byte>) { 0 < |file| <= PAGE && Loads(file) && Linked(file).1 > 1 }

  const STACKS: nat := USTACK_PAGES + KSTACK_PAGES

  /** The page map when the first `n` of `count` pages are taken. */
  function FirstTaken(count: nat, n: nat): (b: seq<bool>)
    ensures |b| == count
  {
    seq(count, k => k < n)
  }

  /** ... but for one. */
  function Holed(count: nat, n: nat, p: nat): (b: seq<bool>)
    ensures |b| == count
  {
    seq(count, k => k < n && k != p)
  }

  /** A program's row, in state `state`. */
  ghost function RowOf(l: Layout, file: seq<byte>, pid: nat, ppid: nat, us: nat): Proc
    requires Loads(file)
  {
    NewProc(pid, ppid, Parsed(file).value.entry, Linked(file).0, Linked(file).1, us, us + USTACK_PAGES,
            l.Addr(us) + STACK_TOP)
  }

  // ---- first fit ----

  lemma {:induction false} FitsAt(bits: seq<bool>, n: nat, i: nat, r: nat)
    requires n > 0 && i <= r && FreeRun(bits, r, n) && forall j :: i <= j < r ==> !FreeRun(bits, j, n)
    ensures FirstFit(bits, n, i) == Some(r)
    decreases r - i
  {
    hide FreeRun;
    assert r < |bits| by { RunInside(bits, n, r); }
    if i < r {
      FitsAt(bits, n, i + 1, r);
    }
  }

  lemma RunInside(bits: seq<bool>, n: nat, r: nat)
    requires n > 0 && FreeRun(bits, r, n)
    ensures r < |bits|
  {}

  lemma {:induction false} FitsNowhere(bits: seq<bool>, n: nat, i: nat)
    requires forall j: nat :: !FreeRun(bits, j, n)
    ensures FirstFit(bits, n, i) == None
    decreases |bits| - i
  {
    hide FreeRun;
    if i < |bits| {
      FitsNowhere(bits, n, i + 1);
    }
  }

  /** Behind a front that is taken the first fit is right there. */
  lemma FitsBehind(count: nat, m: nat, n: nat)
    requires n > 0 && m + n <= count
    ensures FirstFit(FirstTaken(count, m), n, 0) == Some(m)
    ensures WithRun(FirstTaken(count, m), m, n, true) == FirstTaken(count, m + n)
  {
    var b := FirstTaken(count, m);
    forall j | 0 <= j < m ensures !FreeRun(b, j, n) {
      assert b[j];
    }
    FitsAt(b, n, 0, m);
  }

  lemma {:induction false} NoneInWay(bits: seq<bool>, ps: seq<Proc>, lo: nat, hi: nat, skip: nat, k: nat)
    requires forall j :: k <= j < |ps| ==> !InWay(ps, lo, hi, skip, j)
    ensures SweptOut(bits, ps, lo, hi, skip, k) == Plan(bits, ps) && RoomFor(bits, ps, lo, hi, skip, k)
    decreases |ps| - k
  {
    hide InWay;
    if k < |ps| {
      NoneInWay(bits, ps, lo, hi, skip, k + 1);
    }
  }

  /** A hole of one page is too small for two. */
  lemma FitsPast(count: nat, m: nat, h: nat, n: nat)
    requires n > 1 && h + 1 < m && m + n <= count
    ensures FirstFit(Holed(count, m, h), n, 0) == Some(m)
    ensures WithRun(Holed(count, m, h), m, n, true) == Holed(count, m + n, h)
  {
    var b := Holed(count, m, h);
    forall j | 0 <= j < m ensures !FreeRun(b, j, n) {
      assert b[j] || (j == h && b[h + 1]);
    }
    FitsAt(b, n, 0, m);
  }

  lemma FitsNot(count: nat, h: nat, n: nat)
    requires n > 1
    ensures FirstFit(Holed(count, count, h), n, 0) == None
  {
    var b := Holed(count, count, h);
    forall j: nat ensures !FreeRun(b, j, n) {
      if j + n <= count {
        assert b[j] || (j == h && b[h + 1]);
      }
    }
    FitsNowhere(b, n, 0);
  }

  // ---- the plan of each step ----

  lemma StacksBehind(count: nat, m: nat)
    requires m + STACKS <= count
    ensures StackPlan(FirstTaken(count, m)) == Stacks(true, m, m + USTACK_PAGES, FirstTaken(count, m + STACKS))
  {
    hide FirstFit, FirstTaken, WithRun;
    FitsBehind(count, m, USTACK_PAGES);
    FitsBehind(count, m + USTACK_PAGES, KSTACK_PAGES);
  }

  lemma StacksPast(count: nat, m: nat, h: nat)
    requires h + 1 < m && m + STACKS <= count
    ensures StackPlan(Holed(count, m, h)) == Stacks(true, m, m + USTACK_PAGES, Holed(count, m + STACKS, h))
  {
    hide FirstFit, Holed, WithRun;
    FitsPast(count, m, h, USTACK_PAGES);
    FitsPast(count, m + USTACK_PAGES, h, KSTACK_PAGES);
  }

  lemma OnePage(file: seq<byte>)
    requires Small(file)
    ensures FilePages(|file|) == 1 && Spans(file)
    ensures var (lo, hi) := SpanOf(file); lo < hi && Linked(file).0 == lo && hi <= lo + Size(Linked(file).1)
  {
    hide Image;
    SpanPlace(Parsed(file).value.segs, SpanOf(file).0, SpanOf(file).1);
  }

  /** Loading with nobody in the way leaves the page map and the rows as they are. */
  lemma LoadClear(count: nat, m: nat, ps: seq<Proc>, file: seq<byte>)
    requires Small(file) && m < count && forall j :: 0 <= j < |ps| ==> !Live(ps[j])
    ensures LoadPlan(FirstTaken(count, m), ps, file) == Loading(0, Plan(FirstTaken(count, m), ps))
  {
    hide FirstFit, Loads, Spans, SpanOf, Linked, SweptOut, RoomFor;
    OnePage(file);
    FitsBehind(count, m, 1);
    var (lo, hi) := SpanOf(file);
    NoneInWay(FirstTaken(count, m + 1), ps, lo, hi, |ps|, 0);
    assert WithRun(FirstTaken(count, m + 1), m, 1, false) == FirstTaken(count, m);
  }

  /** Loading over row 1 moves its image behind the page the file is read into. */
  lemma LoadOver1(count: nat, m: nat, ps: seq<Proc>, file: seq<byte>)
    requires Small(file) && m + 1 + Linked(file).1 <= count && |ps| > 1
    requires forall j :: 0 <= j < |ps| && j != 1 ==> !Live(ps[j])
    requires Live(ps[1]) && ps[1].image == Linked(file).0 && ps[1].pages == Linked(file).1
    ensures LoadPlan(FirstTaken(count, m), ps, file) ==
            Loading(0, Plan(Holed(count, m + 1 + ps[1].pages, m), ps[1 := Out(ps[1], m + 1)]))
  {
    hide FirstFit, Loads, Spans, SpanOf, Linked, SweptOut, RoomFor;
    OnePage(file);
    var n := ps[1].pages;
    FitsBehind(count, m, 1);
    FitsBehind(count, m + 1, n);
    var (lo, hi) := SpanOf(file);
    var b1 := FirstTaken(count, m + 1);
    SweepSkip(b1, ps, lo, hi, |ps|, 0);
    SweepOne(b1, ps, lo, hi, |ps|, 1, m + 1);
    NoneInWay(FirstTaken(count, m + 1 + n), ps[1 := Out(ps[1], m + 1)], lo, hi, |ps|, 2);
    assert WithRun(FirstTaken(count, m + 1 + n), m, 1, false) == Holed(count, m + 1 + n, m);
  }

  /** An evicted image stays where it is when the first one in its way finds no room. */
  lemma Stuck(bits: seq<bool>, ps: seq<Proc>, i: nat, j: nat)
    requires i < j < |ps| && ps[i].evicted && ps[i].shadow.Some? && FirstFit(bits, ps[j].pages, 0) == None
    requires InWay(ps, ps[i].image, ps[i].image + Size(ps[i].pages), i, j)
    requires forall k :: 0 <= k < j && k != i ==> !Live(ps[k])
    ensures BroughtIn(bits, ps, i) == Plan(bits, ps) && !Comes(bits, ps, i)
  {
    hide FirstFit, SweptOut, RoomFor, Meets;
    StuckFrom(bits, ps, i, j, 0);
  }

  lemma {:induction false} StuckFrom(bits: seq<bool>, ps: seq<Proc>, i: nat, j: nat, k: nat)
    requires i < |ps| && k <= j < |ps| && FirstFit(bits, ps[j].pages, 0) == None
    requires InWay(ps, ps[i].image, ps[i].image + Size(ps[i].pages), i, j)
    requires forall x :: 0 <= x < j && x != i ==> !Live(ps[x])
    ensures var lo, hi := ps[i].image, ps[i].image + Size(ps[i].pages);
      SweptOut(bits, ps, lo, hi, i, k) == Plan(bits, ps) && !RoomFor(bits, ps, lo, hi, i, k)
    decreases j - k
  {
    hide FirstFit, Meets, SweptOut, RoomFor;
    if k == j {
      SweepStop(bits, ps, ps[i].image, ps[i].image + Size(ps[i].pages), i, j);
    } else {
      SweepSkip(bits, ps, ps[i].image, ps[i].image + Size(ps[i].pages), i, k);
      StuckFrom(bits, ps, i, j, k + 1);
    }
  }

  /** The rows when the first program was started and runs. */
  ghost function Rows1(l: Layout, slots: nat, file: seq<byte>): (ps: seq<Proc>)
    requires slots > 2 && Loads(file)
    ensures |ps| == slots
  {
    Entered(FirstRows(slots)[1 := RowOf(l, file, 2, 1, 0)], 0, 1)
  }

  /** ... and has started the second one. */
  ghost function Rows2(l: Layout, slots: nat, file: seq<byte>): (ps: seq<Proc>)
    requires slots > 2 && Loads(file)
    ensures |ps| == slots
  {
    var ps, n := Rows1(l, slots, file), STACKS + 1;
    ps[1 := Out(ps[1], n)][2 := RowOf(l, file, 3, 2, n + Linked(file).1)]
  }

  /** The pages that are just enough. */
  ghost function Tight(file: seq<byte>): nat
    requires Loads(file)
  {
    2 * STACKS + 1 + Linked(file).1
  }

  lemma FirstSpawn(l: Layout, count: nat, slots: nat, file: seq<byte>)
    requires slots > 2 && Small(file) && STACKS <= count
    ensures SpawnPlan(l, FirstTaken(count, 0), FirstRows(slots), 0, 2, Some(file)) ==
            Spawning(2, 1, Plan(FirstTaken(count, STACKS), FirstRows(slots)[1 := RowOf(l, file, 2, 1, 0)]))
  {
    hide FirstFit, Linked, Spans, LoadPlan, StackPlan, FirstTaken, Loads;
    var ps := FirstRows(slots);
    LoadClear(count, 0, ps, file);
    StacksBehind(count, 0);
    assert FreeRow(ps, 1) == 1;
    assert ps[1 := BLANK.(used := true)][1 := RowOf(l, file, 2, 1, 0)] == ps[1 := RowOf(l, file, 2, 1, 0)];
  }

  /** The second program is loaded over the first one, which then has nowhere to be brought back from. */
  lemma SecondSpawn(l: Layout, slots: nat, file: seq<byte>)
    requires slots > 2 && Small(file)
    ensures SpawnPlan(l, FirstTaken(Tight(file), STACKS), Rows1(l, slots, file), 1, 3, Some(file)) ==
            Spawning(3, 2, Plan(Holed(Tight(file), Tight(file), STACKS), Rows2(l, slots, file)))
    ensures !RunsOn(l, FirstTaken(Tight(file), STACKS), Rows1(l, slots, file), 1, 3, Some(file))
  {
    hide FirstFit, Spans, LoadPlan, StackPlan, FirstTaken, Holed, Loads, BroughtIn, Comes, Size, Linked, Layout.Addr;
    var count, ps, ps2 := Tight(file), Rows1(l, slots, file), Rows2(l, slots, file);
    var n := Linked(file).1;
    LoadOver1(count, STACKS, ps, file);
    StacksPast(count, STACKS + 1 + n, STACKS);
    var ps1 := ps[1 := Out(ps[1], STACKS + 1)];
    assert FreeRow(ps1, 2) == 2 && FreeRow(ps1, 1) == 2;
    assert ps1[2 := BLANK.(used := true)][2 := RowOf(l, file, 3, 2, STACKS + 1 + n)] == ps2;
    FitsNot(count, STACKS, n);
    TwoMeets(l, slots, file, ps2);
    Stuck(Holed(count, count, STACKS), ps2, 1, 2);
  }

  lemma TwoMeets(l: Layout, slots: nat, file: seq<byte>, ps: seq<Proc>)
    requires slots > 2 && Small(file) && |ps| == slots && ps[1].image == Linked(file).0 == ps[2].image
    requires ps[1].pages == Linked(file).1 == ps[2].pages && Live(ps[2])
    ensures InWay(ps, ps[1].image, ps[1].image + Size(ps[1].pages), 1, 2)
  {
    hide Linked, Loads;
  }

  /** The second program runs and yields: the first one goes on evicted. */
  lemma BackStuck(l: Layout, slots: nat, file: seq<byte>, frame: Frame)
    requires slots > 2 && Small(file)
    ensures var count, ps := Tight(file), Rows2(l, slots, file);
      var b := Holed(count, count, STACKS);
      var ps3 := Entered(ps, 1, 2);
      var ps4 := ps3[2 := Yielded(ps3[2], frame)];
      && !Comes(b, ps3, 1)
      && YieldPlan(b, ps3, 2, 1, frame) == Plan(b, ps4[1 := ps4[1].(state := Running)])
  {
    hide FirstFit, Holed, Loads, Comes, Size, Linked, Layout.Addr;
    var count, ps := Tight(file), Rows2(l, slots, file);
    var b, ps3 := Holed(count, count, STACKS), Entered(ps, 1, 2);
    var ps4 := ps3[2 := Yielded(ps3[2], frame)];
    var ps5 := ps4[1 := ps4[1].(state := Running)];
    FitsNot(count, STACKS, Linked(file).1);
    TwoMeets(l, slots, file, ps3);
    Stuck(b, ps3, 1, 2);
    TwoMeets(l, slots, file, ps5);
    hide BroughtIn;
    Stuck(b, ps5, 1, 2);
  }

  // ---- the run ----

  /** From the start: a program runs. */
  method Once(layout: Layout, memory: Ram, slots: nat, file: seq<byte>) returns (k: Kernel)
    requires layout.Valid() && layout.lent == map[] && layout.base <= USER_LO && layout.base <= |memory.bytes|
    requires slots > 2 && Small(file) && Linkable(file, |memory.bytes|) && STACKS <= layout.count
    modifies memory
    ensures fresh(k) && fresh(k.procs) && fresh(k.pm) && fresh(k.pm.cells) && k.ram == memory
    ensures k.Valid() && k.l == layout && k.procs.Length == slots && |memory.bytes| == |old(memory.bytes)|
    ensures k.Now() == Moment(FirstTaken(layout.count, STACKS), Rows1(layout, slots, file), 1, [0], 3)
    ensures Img(layout, k.ram.bytes, k.procs[1]) == Linked(file).2
  {
    hide MemOk, TableOk, Img, Survive, Linkable, Linked, Loads, Spans, PageMap.Bits, SpawnPlan, RunFrom, RunsOn, Comes,
         Size, Layout.Addr, Swapped, Layout.Valid, FirstTaken;
    k := new Kernel(layout, memory, slots);
    assert k.pm.Bits() == FirstTaken(layout.count, 0) by { NoneTaken(layout.count); }
    FirstSpawn(layout, layout.count, slots, file);
    var _, _ := k.Spawn(Some(file));
    RunsAtOnce(k.Now(), 1);
    var _, _ := k.RunBlocking(1);
  }

  /** Then it starts itself again; the new process has its image in memory, the first one is evicted. */
  method Twice(layout: Layout, memory: Ram, slots: nat, file: seq<byte>) returns (k: Kernel)
    requires layout.Valid() && layout.lent == map[] && layout.base <= USER_LO && layout.base <= |memory.bytes|
    requires slots > 2 && Small(file) && Linkable(file, |memory.bytes|) && layout.count == Tight(file)
    modifies memory
    ensures fresh(k) && fresh(k.procs) && fresh(k.pm) && fresh(k.pm.cells) && k.ram == memory
    ensures k.Valid() && k.l == layout && k.procs.Length == slots
    ensures k.Now() == Moment(Holed(Tight(file), Tight(file), STACKS), Rows2(layout, slots, file), 1, [0], 4)
    ensures Img(layout, k.ram.bytes, k.procs[1]) == Linked(file).2
    ensures Img(layout, k.ram.bytes, k.procs[2]) == Linked(file).2
  {
    hide MemOk, TableOk, Img, Survive, Linkable, Linked, Loads, Spans, PageMap.Bits, SpawnPlan, RunsOn, Comes, Size,
         Layout.Addr, Swapped, Layout.Valid, Holed, FirstTaken;
    k := Once(layout, memory, slots, file);
    SecondSpawn(layout, slots, file);
    var _, _ := k.Spawn(Some(file));
  }

  /** On a smaller heap there is no room for stacks: the spawn fails, and leaves its caller evicted. */
  method Failed(layout: Layout, memory: Ram, slots: nat, file: seq<byte>) returns (k: Kernel, r: int)
    requires layout.Valid() && layout.lent == map[] && layout.base <= USER_LO && layout.base <= |memory.bytes|
    requires slots > 2 && Small(file) && Linkable(file, |memory.bytes|)
    requires layout.count == STACKS + 1 + Linked(file).1
    modifies memory
    ensures fresh(k) && k.Valid() && k.procs.Length == slots && k.current == 1
    ensures r == -1 && k.procs[1].evicted && Alive(k.procs[1]) && forall j :: 0 <= j < slots ==> !Live(k.procs[j])
  {
    hide MemOk, TableOk, Img, Survive, Linkable, Linked, Loads, Spans, PageMap.Bits, SpawnPlan, RunsOn, Comes, Size,
         Layout.Addr, Swapped, Layout.Valid, Holed, FirstTaken;
    k := Once(layout, memory, slots, file);
    FailedSpawn(layout, slots, file);
    ghost var row;
    r, row := k.Spawn(Some(file));
  }

  /** The new program is loaded over its caller, and then there is no room for its stacks. */
  lemma FailedSpawn(l: Layout, slots: nat, file: seq<byte>)
    requires slots > 2 && Small(file)
    ensures var count, ps := STACKS + 1 + Linked(file).1, Rows1(l, slots, file);
      && SpawnPlan(l, FirstTaken(count, STACKS), ps, 1, 3, Some(file))
         == Spawning(-1, 2, Plan(Holed(count, count, STACKS),
           ps[1 := Out(ps[1], STACKS + 1)][2 := BLANK.(used := true)]))
      && !RunsOn(l, FirstTaken(count, STACKS), ps, 1, 3, Some(file))
  {
    hide FirstFit, Spans, LoadPlan, FirstTaken, Holed, Loads, BroughtIn, Comes, Size, Linked, Layout.Addr;
    var count, ps := STACKS + 1 + Linked(file).1, Rows1(l, slots, file);
    LoadOver1(count, STACKS, ps, file);
    FitsNot(count, STACKS, USTACK_PAGES);
    var ps1 := ps[1 := Out(ps[1], STACKS + 1)];
    assert FreeRow(ps1, 2) == 2 && FreeRow(ps1, 1) == 2;
  }

  lemma NoneTaken(count: nat)
    ensures FirstTaken(count, 0) == seq(count, _ => false)
  {}

  /** A process in memory runs without any swapping. */
  lemma RunsAtOnce(m: Moment, i: nat)
    requires m.current < |m.ps| && i < |m.ps| && m.current != i && !m.ps[i].evicted && |m.stack| < BLOCK_MAX
    ensures RunFrom(m, i) == m.(ps := Entered(m.ps, m.current, i), current := i, stack := m.stack + [m.current])
  {
    var was := Handed(m.ps, m.current, i);
    assert BroughtIn(m.bits, was, i) == Plan(m.bits, was);
    assert was[i := was[i].(frame := None)] == Entered(m.ps, m.current, i);
  }

  /**
   * Then the new process runs and yields. The first one goes on evicted, and a store of it goes into the new process's
   * image and not into its own.
   */
  method Stray(layout: Layout, memory: Ram, slots: nat, file: seq<byte>, frame: Frame, at: nat, v: byte)
    returns (k: Kernel)
    requires layout.Valid() && layout.lent == map[] && layout.base <= USER_LO && layout.base <= |memory.bytes|
    requires slots > 2
    requires Small(file) && Linkable(file, |memory.bytes|) && layout.count == Tight(file) && at < |Linked(file).2|
    modifies memory
    ensures fresh(k) && k.Valid() && k.l == layout && k.procs.Length == slots && k.current == 1 && k.stack == [0]
    ensures k.procs[1].evicted && Alive(k.procs[1]) && Live(k.procs[2]) && k.procs[1].pid == 2 && k.procs[2].pid == 3
    ensures Img(layout, k.ram.bytes, k.procs[1]) == Linked(file).2
    ensures Img(layout, k.ram.bytes, k.procs[2]) == Linked(file).2[at := v]
  {
    hide MemOk, TableOk, Img, Linkable, Linked, Loads, Spans, PageMap.Bits, RunFrom, YieldPlan, Comes, Size,
         Layout.Addr, Swapped, Layout.Valid, Holed;
    k := Twice(layout, memory, slots, file);
    BackStuck(layout, slots, file, frame);
    RunsAtOnce(k.Now(), 2);
    var _, _ := k.RunBlocking(2);
    assert k.stack == [0] + [1] && k.current == 2;
    var _ := k.YieldToParent(frame);
    assert k.stack + [k.current] == [0] + [1] ==>
      k.stack == [0] && k.current == 1 by { Last([0], 1, k.stack, k.current); }
    ImageLong(file);
    k.Store(k.procs[1].image + at, v);
  }

  lemma Last(s: seq<nat>, x: nat, t: seq<nat>, y: nat)
    ensures s + [x] == t + [y] ==> s == t && x == y
  {
    if s + [x] == t + [y] {
      assert (s + [x])[|s|] == x && (t + [y])[|t|] == y && (s + [x])[..|s|] == s && (t + [y])[..|t|] == t;
    }
  }

  lemma ImageLong(file: seq<byte>)
    requires Loads(file)
    ensures |Linked(file).2| == Size(Linked(file).1)
  {}

  // ---- such a file ----

  /** An executable that asks for two pages and has nothing to put into them. */
  function Tiny(): (file: seq<byte>)
    ensures |file| == EHDR_SIZE + PHDR_SIZE
  {
    seq(EHDR_SIZE + PHDR_SIZE, (i: nat) =>
      match i
      case 0 => 0x7F
      case 1 => 0x45
      case 2 => 0x4C
      case 3 => 0x46
      case 16 => 2
      case 18 => 3
      case 27 => 2
      case 28 => EHDR_SIZE
      case 44 => 1
      case 52 => 1
      case 63 => 2
      case 73 => 0x20
      case _ => 0)
  }

  lemma TinyParsed()
    ensures Parsed(Tiny()) == Some(Elf(USER_LO, [Seg(LOAD, 0, USER_LO, 0, 2 * PAGE)]))
  {
    hide Tiny, Le16, Le32;
    TinyFields();
    TinySeg();
    assert Parsed(Tiny()).value.segs == [SegAt(Tiny(), EHDR_SIZE)];
  }

  lemma TinyFields()
    ensures var f := Tiny();
      && f[..4] == [0x7F, 0x45, 0x4C, 0x46] && Le16(f, 16) == 2 && Le16(f, 18) == 3 && Le32(f, 24) == USER_LO
      && Le32(f, 28) == EHDR_SIZE
      && Le16(f, 44) == 1
  {}

  lemma TinySeg()
    ensures SegAt(Tiny(), EHDR_SIZE) == Seg(LOAD, 0, USER_LO, 0, 2 * PAGE)
  {}

  lemma TinySpan(segs: seq<Seg>)
    requires segs == [Seg(LOAD, 0, USER_LO, 0, 2 * PAGE)]
    ensures Span(segs) == Some((USER_LO, USER_LO + 2 * PAGE))
  {
    assert segs[..0] == [] && MinVa([]) == NO_ADDR && MaxVa([]) == 0;
  }

  /** There is one. */
  lemma TinySmall(top: nat)
    requires USER_LO + 2 * PAGE <= top
    ensures Small(Tiny()) && Linkable(Tiny(), top) && Linked(Tiny()).1 == 2 && |Linked(Tiny()).2| == 2 * PAGE
  {
    hide Tiny, Parsed, Span, Image;
    TinyParsed();
    TinySpan(Parsed(Tiny()).value.segs);
    assert PagesFor(2 * PAGE) == 2;
  }
}
