/**
 * Program images without an MMU: all programs are linked to fixed addresses, so an image lives either at its link
 * address or, evicted, in shadow pages of the heap.
 */
module ProcImages {
  import opened Wrappers
  import opened Bytes
  import opened Pages

  /**
   * The heap's pages lie below the addresses programs are linked to. Some of them may be lent to others than processes;
   * `lent` says which, and what they hold.
   */
  datatype Layout = Layout(heap: nat, count: nat, base: nat, ghost lent: map<nat, seq<byte>>)
  {
    ghost predicate Valid() { heap + count * PAGE <= base && base > 0 }

    function Addr(k: nat): nat { heap + k * PAGE }
  }

  datatype State = Free | Ready | Running | Blocked | Zombie

  /** The registers a system call pushed. */
  type Frame = f: seq<int> | |f| == 17 witness seq(17, _ => 0)

  /** A row of the process table. */
  datatype Proc = Proc(used: bool, pid: nat, ppid: nat, state: State, exitCode: int,
                       entry: nat, image: nat, pages: nat, shadow: Option<nat>, evicted: bool,
                       ustack: Option<nat>, ustackPages: nat, kstack: Option<nat>,
                       eip: int, esp: int, eax: int, frame: Option<Frame>, started: bool)

  const KSTACK_PAGES: nat := 4

  const BLANK: Proc := Proc(false, 0, 0, Free, 0, 0, 0, 0, None, false, None, 0, None, 0, 0, 0, None, false)

  // ---- memory ----

  /** `n` bytes from `a` on; nothing where memory ends before. */
  function Sub(m: seq<byte>, a: nat, n: nat): (s: seq<byte>) { if a + n <= |m| then m[a..a + n] else [] }

  ghost predicate SameOutside(m: seq<byte>, m': seq<byte>, a: nat, b: nat) {
    |m'| == |m| && forall x :: 0 <= x < |m| && !(a <= x < b) ==> m'[x] == m[x]
  }

  lemma SubSame(m: seq<byte>, m': seq<byte>, a: nat, b: nat, x: nat, n: nat)
    requires SameOutside(m, m', a, b) && (x + n <= a || b <= x)
    ensures Sub(m', x, n) == Sub(m, x, n)
  {
  }

  lemma PatchOutside(m: seq<byte>, a: nat, p: seq<byte>)
    requires a + |p| <= |m|
    ensures SameOutside(m, Patch(m, a, p), a, a + |p|) && Sub(Patch(m, a, p), a, |p|) == p
  {
  }

  // ---- who owns what ----

  predicate InRun(r: Option<nat>, n: nat, k: nat) { r.Some? && r.value <= k < r.value + n }

  /** Page `k` belongs to the process: its shadow, its user stack or its kernel stack. */
  predicate Owns(p: Proc, k: nat) {
    p.used && (InRun(p.shadow, p.pages, k) || InRun(p.ustack, p.ustackPages, k) || InRun(p.kstack, KSTACK_PAGES, k))
  }

  predicate Alive(p: Proc) { p.used && p.state != Zombie && p.pages > 0 }

  /** In memory at its link address, and needed there. */
  predicate Live(p: Proc) { Alive(p) && !p.evicted }

  predicate Meets(p: Proc, lo: nat, hi: nat) { !(lo >= p.image + Size(p.pages) || hi <= p.image) }

  predicate Overlaps(p: Proc, q: Proc) { Meets(q, p.image, p.image + Size(p.pages)) }

  ghost predicate RowOk(l: Layout, top: nat, p: Proc) {
    p.used ==>
      && (p.pages == 0 ==> p.image == 0) && (p.ustack.Some? ==> p.ustackPages > 0)
      && (p.pages > 0 ==> l.base <= p.image && p.image % PAGE == 0 && p.image + Size(p.pages) <= top)
      && (p.evicted <==> p.shadow.Some?) && (p.evicted ==> p.pages > 0)
      && (forall k: nat :: !(InRun(p.shadow, p.pages, k) && InRun(p.ustack, p.ustackPages, k)))
      && (forall k: nat :: !(InRun(p.shadow, p.pages, k) && InRun(p.kstack, KSTACK_PAGES, k)))
      && (forall k: nat :: !(InRun(p.ustack, p.ustackPages, k) && InRun(p.kstack, KSTACK_PAGES, k)))
  }

  ghost predicate RowsOk(l: Layout, top: nat, ps: seq<Proc>) { forall i :: 0 <= i < |ps| ==> RowOk(l, top, ps[i]) }

  /** Pages processes own are marked as taken. */
  ghost predicate Marked(bits: seq<bool>, ps: seq<Proc>) {
    forall i, k: nat {:trigger Owns(ps[i], k)} :: 0 <= i < |ps| && Owns(ps[i], k) ==> Taken(bits, k)
  }

  predicate Taken(bits: seq<bool>, k: nat) { k < |bits| && bits[k] }

  ghost predicate OwnersApart(ps: seq<Proc>) {
    forall i, j, k: nat {:trigger Owns(ps[i], k), Owns(ps[j], k)} :: 0 <= i < j < |ps| && Owns(ps[i], k) ==>
      !Owns(ps[j], k)
  }

  ghost predicate ImagesApart(ps: seq<Proc>) {
    forall i, j :: 0 <= i < |ps| && 0 <= j < |ps| && i != j && Live(ps[i]) && Live(ps[j]) ==> !Overlaps(ps[i], ps[j])
  }

  /** What a page of the heap holds. */
  function PageOf(l: Layout, m: seq<byte>, k: nat): seq<byte> { Sub(m, l.Addr(k), PAGE) }

  /** Pages that are lent are taken, belong to no process and hold what they should. */
  ghost predicate LentOk(l: Layout, m: seq<byte>, bits: seq<bool>, ps: seq<Proc>) {
    forall k :: k in l.lent ==> LentPage(l, m, bits, ps, k)
  }

  ghost predicate LentPage(l: Layout, m: seq<byte>, bits: seq<bool>, ps: seq<Proc>, k: nat)
    requires k in l.lent
  {
    Taken(bits, k) && PageOf(l, m, k) == l.lent[k] && forall i :: 0 <= i < |ps| ==> !Owns(ps[i], k)
  }

  /**
   * Page runs of processes are marked and disjoint, from each other and from what is lent; images in memory are
   * disjoint.
   */
  ghost predicate MemOk(l: Layout, m: seq<byte>, bits: seq<bool>, ps: seq<Proc>) {
    && l.Valid() && |bits| == l.count && l.base <= |m|
    && RowsOk(l, |m|, ps) && Marked(bits, ps) && OwnersApart(ps) && ImagesApart(ps) && LentOk(l, m, bits, ps)
  }

  /** What a process sees at its link address when it runs: its shadow while evicted, else memory itself. */
  ghost function Img(l: Layout, m: seq<byte>, p: Proc): seq<byte> {
    Sub(m, if p.evicted && p.shadow.Some? then l.Addr(p.shadow.value) else p.image, Size(p.pages))
  }

  /** Every process that can still run keeps its image. */
  ghost predicate SameImages(l: Layout, m: seq<byte>, ps: seq<Proc>, m': seq<byte>, ps': seq<Proc>) {
    |ps'| == |ps| &&
    forall i :: 0 <= i < |ps| && Alive(ps[i]) ==>
      Alive(ps'[i]) && ps'[i].pid == ps[i].pid && Img(l, m', ps'[i]) == Img(l, m, ps[i])
  }

  /** The tables differ at most in where images are kept. */
  ghost predicate Swapped(ps: seq<Proc>, ps': seq<Proc>) {
    |ps'| == |ps| && forall i :: 0 <= i < |ps| ==> Stays(ps[i], ps'[i])
  }

  predicate Stays(p: Proc, q: Proc) { q == p.(evicted := q.evicted, shadow := q.shadow) && (!Alive(p) ==> q == p) }

  lemma SameTrans(l: Layout, m: seq<byte>, ps: seq<Proc>, m1: seq<byte>, ps1: seq<Proc>, m2: seq<byte>, ps2: seq<Proc>)
    requires SameImages(l, m, ps, m1, ps1) && SameImages(l, m1, ps1, m2, ps2)
    ensures SameImages(l, m, ps, m2, ps2)
  {
    hide Img;
  }

  lemma SwappedTrans(ps: seq<Proc>, ps1: seq<Proc>, ps2: seq<Proc>)
    requires Swapped(ps, ps1) && Swapped(ps1, ps2)
    ensures Swapped(ps, ps2)
  {
  }

  // ---- pages in memory ----

  lemma RunPlace(l: Layout, s: nat, n: nat)
    requires l.Valid() && s + n <= l.count
    ensures l.Addr(s) + Size(n) <= l.base && l.Addr(s) + Size(n) == l.Addr(s + n)
  {
  }

  /** Writing to heap pages the process does not own leaves its image alone. */
  lemma HeapWrite(l: Layout, m: seq<byte>, m': seq<byte>, p: Proc, s: nat, n: nat)
    requires l.Valid() && s + n <= l.count && SameOutside(m, m', l.Addr(s), l.Addr(s) + Size(n))
    requires p.used && RowOk(l, |m|, p) && p.pages > 0
    requires forall k :: s <= k < s + n ==> !InRun(p.shadow, p.pages, k)
    ensures Img(l, m', p) == Img(l, m, p)
  {
    hide RowOk, Layout.Addr, Layout.Valid, Size;
    RunPlace(l, s, n);
    if n == 0 {
      assert Size(0) == 0 && m' == m;
    } else if p.evicted && p.shadow.Some? {
      var t := p.shadow.value;
      NoCommonPage(p, s, n);
      ShadowApart(l, s, n, t, p.pages);
      SubSame(m, m', l.Addr(s), l.Addr(s) + Size(n), l.Addr(t), Size(p.pages));
    } else {
      AboveHeap(l, |m|, p);
      SubSame(m, m', l.Addr(s), l.Addr(s) + Size(n), p.image, Size(p.pages));
    }
  }

  lemma NoCommonPage(p: Proc, s: nat, n: nat)
    requires p.shadow.Some? && p.pages > 0 && n > 0 && forall k :: s <= k < s + n ==> !InRun(p.shadow, p.pages, k)
    ensures p.shadow.value + p.pages <= s || s + n <= p.shadow.value
  {
    var k := if s < p.shadow.value then p.shadow.value else s;
    assert InRun(p.shadow, p.pages, k) <==> k < p.shadow.value + p.pages;
  }

  lemma ShadowApart(l: Layout, s: nat, n: nat, t: nat, k: nat)
    requires t + k <= s || s + n <= t
    ensures l.Addr(t) + Size(k) <= l.Addr(s) || l.Addr(s) + Size(n) <= l.Addr(t)
  {
  }

  lemma AboveHeap(l: Layout, top: nat, p: Proc)
    requires RowOk(l, top, p) && p.used && p.pages > 0
    ensures l.base <= p.image && p.image + Size(p.pages) <= top
  {
  }

  /** Writing above the heap, away from the process's place in memory, leaves its image alone. */
  lemma UserWrite(l: Layout, m: seq<byte>, m': seq<byte>, p: Proc, a: nat, b: nat)
    requires l.Valid() && l.base <= a && SameOutside(m, m', a, b)
    requires p.used && RowOk(l, |m|, p) && p.pages > 0 && (p.evicted || !Meets(p, a, b))
    requires p.evicted ==> forall k: nat :: InRun(p.shadow, p.pages, k) ==> k < l.count
    ensures Img(l, m', p) == Img(l, m, p)
  {
    if p.evicted {
      var t := p.shadow.value;
      assert InRun(p.shadow, p.pages, t + p.pages - 1);
      RunPlace(l, t, p.pages);
      SubSame(m, m', a, b, l.Addr(t), Size(p.pages));
    } else {
      SubSame(m, m', a, b, p.image, Size(p.pages));
    }
  }

  // ---- pages lent to others ----

  /** Writing to pages that are not lent, or above the heap, and owning no lent page leaves what is lent in order. */
  lemma LentKept(l: Layout, m: seq<byte>, bits: seq<bool>, ps: seq<Proc>, m': seq<byte>, bits': seq<bool>,
                 ps': seq<Proc>)
    requires l.Valid() && |bits| == l.count && LentOk(l, m, bits, ps)
    requires forall k :: k in l.lent ==> Taken(bits', k) && PageOf(l, m', k) == PageOf(l, m, k)
    requires forall k, i {:trigger Owns(ps'[i], k)} :: k in l.lent && 0 <= i < |ps'| ==> !Owns(ps'[i], k)
    ensures LentOk(l, m', bits', ps')
  {
    hide Owns, PageOf, Taken;
    forall k | k in l.lent ensures LentPage(l, m', bits', ps', k) {
      assert LentPage(l, m, bits, ps, k);
    }
  }

  lemma LentFacts(l: Layout, m: seq<byte>, bits: seq<bool>, ps: seq<Proc>)
    requires LentOk(l, m, bits, ps)
    ensures forall k :: k in l.lent ==> Taken(bits, k)
    ensures forall k, i {:trigger Owns(ps[i], k)} :: k in l.lent && 0 <= i < |ps| ==> !Owns(ps[i], k)
  {
    hide Owns, PageOf, Taken;
    forall k | k in l.lent ensures Taken(bits, k) && forall i :: 0 <= i < |ps| ==> !Owns(ps[i], k) {
      assert LentPage(l, m, bits, ps, k);
    }
  }

  /** A page away from where memory changed is as it was. */
  lemma PageSame(l: Layout, m: seq<byte>, m': seq<byte>, k: nat, s: nat, n: nat)
    requires l.Valid() && k < l.count && SameOutside(m, m', l.Addr(s), l.Addr(s) + Size(n)) && !(s <= k < s + n)
    ensures PageOf(l, m', k) == PageOf(l, m, k)
  {
    hide Sub, SameOutside;
    ShadowApart(l, s, n, k, 1);
    SubSame(m, m', l.Addr(s), l.Addr(s) + Size(n), l.Addr(k), PAGE);
  }

  lemma PageBelow(l: Layout, m: seq<byte>, m': seq<byte>, k: nat, a: nat, b: nat)
    requires l.Valid() && k < l.count && SameOutside(m, m', a, b) && l.base <= a
    ensures PageOf(l, m', k) == PageOf(l, m, k)
  {
    hide Sub, SameOutside;
    RunPlace(l, k, 1);
    SubSame(m, m', a, b, l.Addr(k), PAGE);
  }

  /** Memory changed in a run that is not lent. */
  lemma LentHeap(l: Layout, m: seq<byte>, bits: seq<bool>, ps: seq<Proc>, m': seq<byte>, bits': seq<bool>,
                 ps': seq<Proc>, s: nat, n: nat)
    requires l.Valid() && |bits| == l.count && LentOk(l, m, bits, ps)
    requires SameOutside(m, m', l.Addr(s), l.Addr(s) + Size(n))
    requires forall k :: k in l.lent ==> !(s <= k < s + n) && Taken(bits', k)
    requires forall k, i {:trigger Owns(ps'[i], k)} :: k in l.lent && 0 <= i < |ps'| ==> !Owns(ps'[i], k)
    ensures LentOk(l, m', bits', ps')
  {
    hide Owns, PageOf, SameOutside, LentOk;
    LentFacts(l, m, bits, ps);
    forall k | k in l.lent ensures PageOf(l, m', k) == PageOf(l, m, k) {
      PageSame(l, m, m', k, s, n);
    }
    LentKept(l, m, bits, ps, m', bits', ps');
  }

  /** Memory changed above the heap. */
  lemma LentAbove(l: Layout, m: seq<byte>, bits: seq<bool>, ps: seq<Proc>, m': seq<byte>, a: nat, b: nat)
    requires l.Valid() && |bits| == l.count && LentOk(l, m, bits, ps) && SameOutside(m, m', a, b) && l.base <= a
    ensures LentOk(l, m', bits, ps)
  {
    hide Owns, PageOf, SameOutside, LentOk;
    LentFacts(l, m, bits, ps);
    forall k | k in l.lent ensures PageOf(l, m', k) == PageOf(l, m, k) {
      PageBelow(l, m, m', k, a, b);
    }
    LentKept(l, m, bits, ps, m', bits, ps);
  }

  /** Rows that own no lent page. */
  lemma LentRows(l: Layout, m: seq<byte>, bits: seq<bool>, ps: seq<Proc>, bits': seq<bool>, ps': seq<Proc>)
    requires l.Valid() && |bits| == l.count && LentOk(l, m, bits, ps)
    requires forall k :: k in l.lent ==> Taken(bits', k)
    requires forall k, i {:trigger Owns(ps'[i], k)} :: k in l.lent && 0 <= i < |ps'| ==> !Owns(ps'[i], k)
    ensures LentOk(l, m, bits', ps')
  {
    hide Owns, PageOf, Taken, LentOk;
    LentKept(l, m, bits, ps, m, bits', ps');
  }

  /** A free run has no page that is lent. */
  lemma FreeNotLent(l: Layout, m: seq<byte>, bits: seq<bool>, ps: seq<Proc>, s: nat, n: nat)
    requires LentOk(l, m, bits, ps) && FreeRun(bits, s, n)
    ensures forall k :: k in l.lent ==> !(s <= k < s + n)
  {
    hide Owns, LentOk;
    LentFacts(l, m, bits, ps);
  }

  // ---- swapping out ----

  /** A process's row after its image was copied to the pages from `s` on. */
  function Out(p: Proc, s: nat): Proc { p.(shadow := Some(s), evicted := true) }

  /** Memory after that copy. */
  ghost function CopiedOut(l: Layout, m: seq<byte>, p: Proc, s: nat): (m': seq<byte>)
    requires l.Addr(s) + Size(p.pages) <= |m| && p.image + Size(p.pages) <= |m|
  {
    Patch(m, l.Addr(s), m[p.image..p.image + Size(p.pages)])
  }

  lemma EvictOne(l: Layout, m: seq<byte>, bits: seq<bool>, ps: seq<Proc>, i: nat, s: nat)
    requires MemOk(l, m, bits, ps) && i < |ps| && Live(ps[i]) && FreeRun(bits, s, ps[i].pages)
    ensures l.Addr(s) + Size(ps[i].pages) <= |m| && ps[i].image + Size(ps[i].pages) <= |m|
    ensures
      var m', ps' := CopiedOut(l, m, ps[i], s), ps[i := Out(ps[i], s)];
      && MemOk(l, m', WithRun(bits, s, ps[i].pages, true), ps')
      && SameImages(l, m, ps, m', ps') && Swapped(ps, ps')
  {
    hide Layout.Addr, Size, Patch, RowOk, Marked, OwnersApart, ImagesApart, Meets, Overlaps, Owns, InRun, FreeRun,
         Layout.Valid, LentOk, Taken;
    var p := ps[i];
    FreeIsUnowned(bits, ps, s, p.pages);
    AboveHeap(l, |m|, p);
    NoShadow(l, |m|, p);
    RunPlace(l, s, p.pages);
    var m' := CopiedOut(l, m, p, s);
    PatchOutside(m, l.Addr(s), m[p.image..p.image + Size(p.pages)]);
    forall j | 0 <= j < |ps| && Alive(ps[j]) && j != i ensures Img(l, m', ps[j]) == Img(l, m, ps[j]) {
      NotInShadow(ps[j], s, p.pages);
      HeapWrite(l, m, m', ps[j], s, p.pages);
    }
    EvictedLent(l, m, bits, ps, m', i, s);
    EvictedOwns(bits, ps, i, s);
    EvictedRow(l, |m|, bits, ps, i, s);
    EvictedApart(ps, i, s);
  }

  lemma EvictedLent(l: Layout, m: seq<byte>, bits: seq<bool>, ps: seq<Proc>, m': seq<byte>, i: nat, s: nat)
    requires l.Valid() && |bits| == l.count && LentOk(l, m, bits, ps) && i < |ps| && ps[i].used && ps[i].shadow == None
    requires FreeRun(bits, s, ps[i].pages) && SameOutside(m, m', l.Addr(s), l.Addr(s) + Size(ps[i].pages))
    ensures LentOk(l, m', WithRun(bits, s, ps[i].pages, true), ps[i := Out(ps[i], s)])
  {
    hide Owns, Out, FreeRun, LentOk, SameOutside, PageOf, Layout.Addr, Size, Layout.Valid;
    FreeNotLent(l, m, bits, ps, s, ps[i].pages);
    LentFacts(l, m, bits, ps);
    var ps' := ps[i := Out(ps[i], s)];
    forall k, j | k in l.lent && 0 <= j < |ps'| ensures !Owns(ps'[j], k) {
      OutOwns(ps[i], s, k);
    }
    LentHeap(l, m, bits, ps, m', WithRun(bits, s, ps[i].pages, true), ps', s, ps[i].pages);
  }

  lemma NoShadow(l: Layout, top: nat, p: Proc)
    requires RowOk(l, top, p) && Live(p)
    ensures p.shadow == None
  {
  }

  lemma NotInShadow(p: Proc, s: nat, n: nat)
    requires p.used && forall k: nat :: s <= k < s + n ==> !Owns(p, k)
    ensures forall k: nat :: s <= k < s + n ==> !InRun(p.shadow, p.pages, k)
  {
    forall k: nat | s <= k < s + n ensures !InRun(p.shadow, p.pages, k) {
      assert !Owns(p, k);
    }
  }

  lemma FreeIsUnowned(bits: seq<bool>, ps: seq<Proc>, s: nat, n: nat)
    requires Marked(bits, ps) && FreeRun(bits, s, n)
    ensures forall j, k: nat :: 0 <= j < |ps| && s <= k < s + n ==> !Owns(ps[j], k)
    ensures s + n <= |bits|
  {
    hide Owns;
    forall j, k: nat | 0 <= j < |ps| && s <= k < s + n ensures !Owns(ps[j], k) {
      assert !bits[k];
    }
  }

  lemma OutOwns(p: Proc, s: nat, k: nat)
    requires p.used && p.shadow == None
    ensures Owns(Out(p, s), k) <==> Owns(p, k) || s <= k < s + p.pages
  {
  }

  lemma EvictedOwns(bits: seq<bool>, ps: seq<Proc>, i: nat, s: nat)
    requires Marked(bits, ps) && OwnersApart(ps) && i < |ps| && ps[i].used && ps[i].shadow == None
    requires FreeRun(bits, s, ps[i].pages)
    ensures Marked(WithRun(bits, s, ps[i].pages, true), ps[i := Out(ps[i], s)]) && OwnersApart(ps[i := Out(ps[i], s)])
  {
    FreeIsUnowned(bits, ps, s, ps[i].pages);
    hide Owns, Out, FreeRun;
    forall k: nat ensures Owns(Out(ps[i], s), k) <==> Owns(ps[i], k) || s <= k < s + ps[i].pages {
      OutOwns(ps[i], s, k);
    }
    var bits', ps' := WithRun(bits, s, ps[i].pages, true), ps[i := Out(ps[i], s)];
    forall j, k: nat | 0 <= j < |ps'| && Owns(ps'[j], k) ensures Taken(bits', k) {
      assert Owns(ps[j], k) || s <= k < s + ps[i].pages;
    }
  }

  lemma EvictedRow(l: Layout, top: nat, bits: seq<bool>, ps: seq<Proc>, i: nat, s: nat)
    requires i < |ps| && Live(ps[i]) && RowsOk(l, top, ps)
    requires forall k: nat :: s <= k < s + ps[i].pages ==> !Owns(ps[i], k)
    ensures RowsOk(l, top, ps[i := Out(ps[i], s)])
  {
    var p, p' := ps[i], Out(ps[i], s);
    assert RowOk(l, top, p);
    forall k: nat | InRun(p'.shadow, p.pages, k)
      ensures !InRun(p.ustack, p.ustackPages, k) && !InRun(p.kstack, KSTACK_PAGES, k)
    {
      assert !Owns(p, k);
    }
    assert RowOk(l, top, p');
  }

  lemma EvictedApart(ps: seq<Proc>, i: nat, s: nat)
    requires ImagesApart(ps) && i < |ps|
    ensures ImagesApart(ps[i := Out(ps[i], s)])
  {
    hide Overlaps;
  }

  // ---- giving pages back ----

  /** Memory after the pages from `s` on were given back. */
  ghost function Poisoned(l: Layout, m: seq<byte>, s: nat, n: nat): (m': seq<byte>)
    requires l.Addr(s) + Size(n) <= |m|
  {
    Patch(m, l.Addr(s), seq(Size(n), _ => POISON))
  }

  /** Row `i` becomes `q`, no longer owning the pages from `s` on, which it alone owned. */
  lemma RunReleased(bits: seq<bool>, ps: seq<Proc>, i: nat, q: Proc, s: nat, n: nat)
    requires Marked(bits, ps) && OwnersApart(ps) && i < |ps|
    requires forall k: nat :: Owns(q, k) ==> Owns(ps[i], k) && !(s <= k < s + n)
    requires forall k: nat :: s <= k < s + n ==> Owns(ps[i], k)
    ensures Marked(WithRun(bits, s, n, false), ps[i := q]) && OwnersApart(ps[i := q])
    ensures forall j, k: nat :: 0 <= j < |ps| && j != i && s <= k < s + n ==> !Owns(ps[j], k)
    ensures n == 0 || s + n <= |bits|
  {
    hide Owns;
    forall j, k: nat | 0 <= j < |ps| && j != i && s <= k < s + n ensures !Owns(ps[j], k) {
      assert Owns(ps[i], k);
    }
    var bits', ps' := WithRun(bits, s, n, false), ps[i := q];
    forall j, k: nat | 0 <= j < |ps'| && Owns(ps'[j], k) ensures Taken(bits', k) {
      assert Owns(ps[j], k);
    }
    assert n > 0 ==> Owns(ps[i], s + n - 1);
  }

  /** Poisoning pages of row `i` leaves every other image alone. */
  lemma PoisonOthers(l: Layout, m: seq<byte>, ps: seq<Proc>, i: nat, s: nat, n: nat)
    requires l.Valid() && l.base <= |m| && RowsOk(l, |m|, ps) && i < |ps| && s + n <= l.count
    requires forall j, k: nat :: 0 <= j < |ps| && j != i && s <= k < s + n ==> !Owns(ps[j], k)
    ensures l.Addr(s) + Size(n) <= |m|
    ensures SameOutside(m, Poisoned(l, m, s, n), l.Addr(s), l.Addr(s) + Size(n))
    ensures forall j :: 0 <= j < |ps| && j != i && Alive(ps[j]) ==>
      Img(l, Poisoned(l, m, s, n), ps[j]) == Img(l, m, ps[j])
  {
    hide Layout.Addr, Size, Patch, RowOk, Owns, InRun, Layout.Valid;
    RunPlace(l, s, n);
    PatchOutside(m, l.Addr(s), seq(Size(n), _ => POISON));
    forall j | 0 <= j < |ps| && j != i && Alive(ps[j]) ensures Img(l, Poisoned(l, m, s, n), ps[j]) == Img(l, m, ps[j]) {
      NotInShadow(ps[j], s, n);
      HeapWrite(l, m, Poisoned(l, m, s, n), ps[j], s, n);
    }
  }

  // ---- swapping in ----

  function In(p: Proc): Proc { p.(shadow := None, evicted := false) }

  /** Memory after the shadow was copied to the link address. */
  ghost function CopiedIn(l: Layout, m: seq<byte>, p: Proc, s: nat): (m': seq<byte>)
    requires l.Addr(s) + Size(p.pages) <= |m| && p.image + Size(p.pages) <= |m|
  {
    Patch(m, p.image, m[l.Addr(s)..l.Addr(s) + Size(p.pages)])
  }

  /** Bringing an evicted image back, once nobody else is in its place. */
  lemma RestoreOne(l: Layout, m: seq<byte>, bits: seq<bool>, ps: seq<Proc>, i: nat, s: nat)
    requires MemOk(l, m, bits, ps) && i < |ps| && Alive(ps[i]) && ps[i].evicted && ps[i].shadow == Some(s)
    requires forall j :: 0 <= j < |ps| && j != i && Live(ps[j]) ==> !Overlaps(ps[i], ps[j])
    ensures l.Addr(s) + Size(ps[i].pages) <= |m| && ps[i].image + Size(ps[i].pages) <= |m|
    ensures
      var m1, ps' := CopiedIn(l, m, ps[i], s), ps[i := In(ps[i])];
      var m2 := Poisoned(l, m1, s, ps[i].pages);
      && MemOk(l, m2, WithRun(bits, s, ps[i].pages, false), ps')
      && SameImages(l, m, ps, m2, ps') && Swapped(ps, ps')
  {
    hide Layout.Addr, Size, Patch, RowOk, Marked, OwnersApart, ImagesApart, Overlaps, Owns, InRun, FreeRun,
         Layout.Valid, Img, LentOk, Taken;
    var p := ps[i];
    var n := p.pages;
    AboveHeap(l, |m|, p);
    InOwns(l, |m|, p, s);
    RunReleased(bits, ps, i, In(p), s, n);
    RunPlace(l, s, n);
    var a := p.image;
    PatchOutside(m, a, m[l.Addr(s)..l.Addr(s) + Size(n)]);
    var m1 := CopiedIn(l, m, p, s);
    forall j | 0 <= j < |ps| && j != i && Alive(ps[j]) ensures Img(l, m1, ps[j]) == Img(l, m, ps[j]) {
      ShadowInHeap(l, |m|, bits, ps, j);
      NoMeeting(ps[i], ps[j]);
      UserWrite(l, m, m1, ps[j], a, a + Size(n));
    }
    PoisonOthers(l, m1, ps, i, s, n);
    RestoredImage(l, m, m1, Poisoned(l, m1, s, n), p, s);
    LentAbove(l, m, bits, ps, m1, a, a + Size(n));
    ReleasedLent(l, m1, bits, ps, Poisoned(l, m1, s, n), i, In(p), s, n);
    InRow(l, |m|, ps, i);
    RestoredApart(ps, i);
  }

  /** Pages of row `i` given back. */
  lemma ReleasedLent(l: Layout, m: seq<byte>, bits: seq<bool>, ps: seq<Proc>, m': seq<byte>, i: nat, q: Proc, s: nat,
                     n: nat)
    requires l.Valid() && |bits| == l.count && LentOk(l, m, bits, ps) && i < |ps|
    requires SameOutside(m, m', l.Addr(s), l.Addr(s) + Size(n))
    requires forall k: nat :: Owns(q, k) ==> Owns(ps[i], k)
    requires forall k: nat :: s <= k < s + n ==> Owns(ps[i], k)
    ensures LentOk(l, m', WithRun(bits, s, n, false), ps[i := q])
  {
    hide Owns, LentOk, SameOutside, PageOf, Layout.Addr, Size, Layout.Valid;
    LentFacts(l, m, bits, ps);
    forall k | k in l.lent ensures !(s <= k < s + n) && Taken(WithRun(bits, s, n, false), k) {
      assert !Owns(ps[i], k) && Taken(bits, k);
    }
    LentHeap(l, m, bits, ps, m', WithRun(bits, s, n, false), ps[i := q], s, n);
  }

  lemma NoMeeting(p: Proc, q: Proc)
    ensures !Overlaps(p, q) <==> !Meets(q, p.image, p.image + Size(p.pages))
  {
  }

  lemma InOwns(l: Layout, top: nat, p: Proc, s: nat)
    requires RowOk(l, top, p) && p.used && p.shadow == Some(s)
    ensures forall k: nat :: Owns(In(p), k) ==> Owns(p, k) && !(s <= k < s + p.pages)
    ensures forall k: nat :: s <= k < s + p.pages ==> Owns(p, k)
  {
    forall k: nat | Owns(In(p), k) ensures Owns(p, k) && !(s <= k < s + p.pages) {
      assert InRun(p.ustack, p.ustackPages, k) || InRun(p.kstack, KSTACK_PAGES, k);
    }
  }

  lemma ShadowInHeap(l: Layout, top: nat, bits: seq<bool>, ps: seq<Proc>, j: nat)
    requires RowsOk(l, top, ps) && Marked(bits, ps) && j < |ps| && ps[j].used && |bits| == l.count
    ensures RowOk(l, top, ps[j]) && forall k: nat :: InRun(ps[j].shadow, ps[j].pages, k) ==> k < l.count
    ensures ps[j].evicted <==> ps[j].shadow.Some?
  {
    forall k: nat | InRun(ps[j].shadow, ps[j].pages, k) ensures k < l.count {
      assert Owns(ps[j], k);
    }
  }

  lemma RestoredImage(l: Layout, m: seq<byte>, m1: seq<byte>, m2: seq<byte>, p: Proc, s: nat)
    requires p.evicted && p.shadow == Some(s) && l.Addr(s) + Size(p.pages) <= l.base <= p.image
    requires p.image + Size(p.pages) <= |m|
    requires m1 == CopiedIn(l, m, p, s) && SameOutside(m1, m2, l.Addr(s), l.Addr(s) + Size(p.pages))
    ensures Img(l, m2, In(p)) == Img(l, m, p)
  {
    hide Layout.Addr, Size, Patch;
    PatchOutside(m, p.image, m[l.Addr(s)..l.Addr(s) + Size(p.pages)]);
    SubSame(m1, m2, l.Addr(s), l.Addr(s) + Size(p.pages), p.image, Size(p.pages));
  }

  lemma InRow(l: Layout, top: nat, ps: seq<Proc>, i: nat)
    requires i < |ps| && RowsOk(l, top, ps)
    ensures RowsOk(l, top, ps[i := In(ps[i])])
  {
    var p := ps[i];
    assert RowOk(l, top, p);
    assert RowOk(l, top, In(p));
  }

  lemma RestoredApart(ps: seq<Proc>, i: nat)
    requires ImagesApart(ps) && i < |ps|
    requires forall j :: 0 <= j < |ps| && j != i && Live(ps[j]) ==> !Overlaps(ps[i], ps[j])
    ensures ImagesApart(ps[i := In(ps[i])])
  {
    hide Size;
  }

  // ---- writing where programs are linked ----

  /** Writing over a range no live image meets harms nobody. */
  lemma LoadOver(l: Layout, m: seq<byte>, m': seq<byte>, bits: seq<bool>, ps: seq<Proc>, a: nat, b: nat)
    requires MemOk(l, m, bits, ps) && l.base <= a && SameOutside(m, m', a, b)
    requires forall j :: 0 <= j < |ps| && Live(ps[j]) ==> !Meets(ps[j], a, b)
    ensures MemOk(l, m', bits, ps) && SameImages(l, m, ps, m', ps)
  {
    hide Meets, Img, Marked, Owns, OwnersApart, ImagesApart, RowOk, Layout.Valid, LentOk;
    LentAbove(l, m, bits, ps, m', a, b);
    forall j | 0 <= j < |ps| && Alive(ps[j]) ensures Img(l, m', ps[j]) == Img(l, m, ps[j]) {
      ShadowInHeap(l, |m|, bits, ps, j);
      UserWrite(l, m, m', ps[j], a, b);
    }
  }

  /** Nobody owns a page of the run, and none is lent. */
  ghost predicate Unowned(l: Layout, ps: seq<Proc>, s: nat, n: nat) {
    && (forall j, k: nat {:trigger Owns(ps[j], k)} :: 0 <= j < |ps| && s <= k < s + n ==> !Owns(ps[j], k))
    && (forall k :: k in l.lent ==> !(s <= k < s + n))
  }

  /** Writing to pages nobody owns harms nobody. */
  lemma UnownedWrite(l: Layout, m: seq<byte>, m': seq<byte>, bits: seq<bool>, ps: seq<Proc>, s: nat, n: nat)
    requires MemOk(l, m, bits, ps) && s + n <= l.count && Unowned(l, ps, s, n)
    requires SameOutside(m, m', l.Addr(s), l.Addr(s) + Size(n))
    ensures MemOk(l, m', bits, ps) && SameImages(l, m, ps, m', ps)
  {
    hide Layout.Addr, Size, Owns, OwnersApart, ImagesApart, RowOk, Img, Layout.Valid, Marked, LentOk;
    LentFacts(l, m, bits, ps);
    LentHeap(l, m, bits, ps, m', bits, ps, s, n);
    forall j | 0 <= j < |ps| && Alive(ps[j]) ensures Img(l, m', ps[j]) == Img(l, m, ps[j]) {
      NotInShadow(ps[j], s, n);
      HeapWrite(l, m, m', ps[j], s, n);
    }
  }

  /** Giving back pages nobody owns harms nobody. */
  lemma ReturnUnowned(l: Layout, m: seq<byte>, bits: seq<bool>, ps: seq<Proc>, s: nat, n: nat)
    requires MemOk(l, m, bits, ps) && s + n <= l.count && Unowned(l, ps, s, n)
    ensures l.Addr(s) + Size(n) <= |m|
    ensures MemOk(l, Poisoned(l, m, s, n), WithRun(bits, s, n, false), ps)
    ensures SameImages(l, m, ps, Poisoned(l, m, s, n), ps)
  {
    hide Patch, Layout.Addr, Size, Owns, OwnersApart, ImagesApart, RowsOk, Img, SameImages, LentOk;
    RunPlace(l, s, n);
    PatchOutside(m, l.Addr(s), seq(Size(n), _ => POISON));
    UnownedWrite(l, m, Poisoned(l, m, s, n), bits, ps, s, n);
    LentFacts(l, m, bits, ps);
    LentRows(l, Poisoned(l, m, s, n), bits, ps, WithRun(bits, s, n, false), ps);
    forall j, k: nat | 0 <= j < |ps| && Owns(ps[j], k) ensures Taken(WithRun(bits, s, n, false), k) {
      assert Taken(bits, k);
    }
  }

  /** Taking free pages harms nobody. */
  lemma TakeUnowned(l: Layout, m: seq<byte>, bits: seq<bool>, ps: seq<Proc>, s: nat, n: nat)
    requires MemOk(l, m, bits, ps) && FreeRun(bits, s, n)
    ensures MemOk(l, m, WithRun(bits, s, n, true), ps) && Unowned(l, ps, s, n) && s + n <= l.count
    ensures l.Addr(s) + Size(n) <= l.base <= |m|
  {
    hide Owns, OwnersApart, ImagesApart, RowsOk, Img, LentOk;
    FreeIsUnowned(bits, ps, s, n);
    FreeNotLent(l, m, bits, ps, s, n);
    LentFacts(l, m, bits, ps);
    LentRows(l, m, bits, ps, WithRun(bits, s, n, true), ps);
    RunPlace(l, s, n);
    forall j, k: nat | 0 <= j < |ps| && Owns(ps[j], k) ensures Taken(WithRun(bits, s, n, true), k) {
      assert Taken(bits, k);
    }
  }

  /** A run that was taken and unowned stays unowned while others only take free pages. */
  lemma StaysUnowned(l: Layout, bits: seq<bool>, ps: seq<Proc>, bits': seq<bool>, ps': seq<Proc>, s: nat, n: nat)
    requires OnlyTakes(bits, ps, bits', ps') && Unowned(l, ps, s, n)
    requires forall k: nat :: s <= k < s + n ==> Taken(bits, k)
    ensures Unowned(l, ps', s, n)
  {
    hide Owns, Taken;
  }

  // ---- rows that look the same to memory ----

  /** The rows differ in nothing that concerns memory. */
  predicate SameRow(p: Proc, q: Proc) {
    && q.used == p.used && q.pid == p.pid && q.image == p.image && q.pages == p.pages && q.shadow == p.shadow
    && q.evicted == p.evicted
    && q.ustack == p.ustack && q.ustackPages == p.ustackPages && q.kstack == p.kstack
    && (q.state == Zombie <==> p.state == Zombie)
  }

  lemma RowsAlike(l: Layout, m: seq<byte>, bits: seq<bool>, ps: seq<Proc>, ps': seq<Proc>)
    requires MemOk(l, m, bits, ps) && |ps'| == |ps| && forall i :: 0 <= i < |ps| ==> SameRow(ps[i], ps'[i])
    ensures MemOk(l, m, bits, ps') && SameImages(l, m, ps, m, ps')
  {
    hide Size;
    forall i | 0 <= i < |ps| ensures RowOk(l, |m|, ps'[i]) && forall k: nat :: Owns(ps'[i], k) <==> Owns(ps[i], k) {
      assert RowOk(l, |m|, ps[i]);
    }
    hide RowOk, Owns;
  }

  /** A process that will not run again needs its image no more. */
  lemma Dying(l: Layout, m: seq<byte>, bits: seq<bool>, ps: seq<Proc>, i: nat, q: Proc)
    requires MemOk(l, m, bits, ps) && i < |ps| && q.state == Zombie && SameRow(ps[i].(state := Zombie), q)
    ensures MemOk(l, m, bits, ps[i := q]) && Survive(l, m, ps, m, ps[i := q])
  {
    hide Size;
    assert RowOk(l, |m|, ps[i]);
    assert RowOk(l, |m|, q) && forall k: nat :: Owns(q, k) <==> Owns(ps[i], k);
    hide RowOk, Owns;
  }

  /** Whoever can still run could run before and has its image. */
  ghost predicate Survive(l: Layout, m: seq<byte>, ps: seq<Proc>, m': seq<byte>, ps': seq<Proc>) {
    |ps'| == |ps| && forall i :: 0 <= i < |ps| && Alive(ps'[i]) ==>
      Alive(ps[i]) && ps'[i].pid == ps[i].pid && Img(l, m', ps'[i]) == Img(l, m, ps[i])
  }

  lemma SurviveTrans(l: Layout, m: seq<byte>, ps: seq<Proc>, m1: seq<byte>, ps1: seq<Proc>, m2: seq<byte>,
                     ps2: seq<Proc>)
    requires Survive(l, m, ps, m1, ps1) && Survive(l, m1, ps1, m2, ps2)
    ensures Survive(l, m, ps, m2, ps2)
  {
    hide Img;
  }

  /** Pages are newly owned only if they were free, and nothing is given back. */
  ghost predicate OnlyTakes(bits: seq<bool>, ps: seq<Proc>, bits': seq<bool>, ps': seq<Proc>) {
    && |ps'| == |ps| && |bits'| == |bits|
    && (forall j, k: nat {:trigger Owns(ps'[j], k)} :: 0 <= j < |ps| && Owns(ps'[j], k) ==>
          Owns(ps[j], k) || !Taken(bits, k))
    && (forall k: nat :: Taken(bits, k) ==> Taken(bits', k))
  }

  lemma TakesTrans(bits: seq<bool>, ps: seq<Proc>, bits1: seq<bool>, ps1: seq<Proc>, bits2: seq<bool>, ps2: seq<Proc>)
    requires OnlyTakes(bits, ps, bits1, ps1) && OnlyTakes(bits1, ps1, bits2, ps2)
    ensures OnlyTakes(bits, ps, bits2, ps2)
  {
    hide Owns, Taken;
  }

  /** Marking a free run takes only free pages. */
  lemma EvictTakes(bits: seq<bool>, ps: seq<Proc>, i: nat, s: nat)
    requires i < |ps| && ps[i].used && ps[i].shadow == None && FreeRun(bits, s, ps[i].pages)
    ensures OnlyTakes(bits, ps, WithRun(bits, s, ps[i].pages, true), ps[i := Out(ps[i], s)])
  {
    hide Owns, Out;
    var ps' := ps[i := Out(ps[i], s)];
    forall j, k: nat | 0 <= j < |ps| && Owns(ps'[j], k) ensures Owns(ps[j], k) || !Taken(bits, k) {
      OutOwns(ps[i], s, k);
    }
  }

  // ---- rows that are given up ----

  function Dropped(p: Proc): Proc { p.(used := false) }

  /** The map after a process's pages were given back. */
  function Reaped(bits: seq<bool>, p: Proc): (r: seq<bool>) {
    var b1 := if p.shadow.Some? then WithRun(bits, p.shadow.value, p.pages, false) else bits;
    var b2 := if p.ustack.Some? then WithRun(b1, p.ustack.value, p.ustackPages, false) else b1;
    if p.kstack.Some? then WithRun(b2, p.kstack.value, KSTACK_PAGES, false) else b2
  }

  /** Giving up the row of a process that cannot run again frees its three runs. */
  lemma DropRow(l: Layout, m: seq<byte>, bits: seq<bool>, ps: seq<Proc>, i: nat)
    requires MemOk(l, m, bits, ps) && i < |ps| && ps[i].used && !Alive(ps[i])
    ensures MemOk(l, m, bits, ps[i := Dropped(ps[i])]) && Survive(l, m, ps, m, ps[i := Dropped(ps[i])])
    ensures var p, ps' := ps[i], ps[i := Dropped(ps[i])];
      && (p.shadow.Some? ==> Unowned(l, ps', p.shadow.value, p.pages) && p.shadow.value + p.pages <= l.count)
      && (p.ustack.Some? ==>
            Unowned(l, ps', p.ustack.value, p.ustackPages) && p.ustack.value + p.ustackPages <= l.count)
      && (p.kstack.Some? ==> Unowned(l, ps', p.kstack.value, KSTACK_PAGES) && p.kstack.value + KSTACK_PAGES <= l.count)
  {
    hide Size, Img;
    var p, ps' := ps[i], ps[i := Dropped(ps[i])];
    assert RowOk(l, |m|, p) && RowOk(l, |m|, Dropped(p));
    if p.shadow.Some? {
      OwnRun(l, m, bits, ps, i, p.shadow.value, p.pages);
    }
    if p.ustack.Some? {
      OwnRun(l, m, bits, ps, i, p.ustack.value, p.ustackPages);
    }
    if p.kstack.Some? {
      OwnRun(l, m, bits, ps, i, p.kstack.value, KSTACK_PAGES);
    }
    hide RowOk, Owns, Unowned, Taken;
    assert forall k: nat :: !Owns(Dropped(p), k) by { OwnsNothing(p); }
  }

  /** Pages were given back exactly with the rows that owned them. */
  ghost predicate FreedBy(bits: seq<bool>, ps: seq<Proc>, bits': seq<bool>, ps': seq<Proc>) {
    && |ps'| == |ps| && |bits'| == |bits|
    && forall k: nat :: Taken(bits', k) <==> Taken(bits, k) && Unfreed(ps, ps', k)
  }

  /** No row that owned the page has been given up. */
  ghost predicate Unfreed(ps: seq<Proc>, ps': seq<Proc>, k: nat)
    requires |ps'| == |ps|
  {
    forall j {:trigger Owns(ps[j], k)} :: 0 <= j < |ps| && Owns(ps[j], k) ==> ps'[j].used
  }

  /** Rows still in use own what they owned. */
  ghost predicate FewerRows(ps: seq<Proc>, ps': seq<Proc>) {
    && |ps'| == |ps|
    && forall j :: 0 <= j < |ps| && ps'[j].used ==> ps[j].used && SameOwn(ps[j], ps'[j])
  }

  predicate SameOwn(p: Proc, q: Proc) {
    && q.shadow == p.shadow && q.pages == p.pages && q.ustack == p.ustack && q.ustackPages == p.ustackPages
    && q.kstack == p.kstack
  }

  lemma FreedNothing(bits: seq<bool>, ps: seq<Proc>)
    ensures FreedBy(bits, ps, bits, ps) && FewerRows(ps, ps)
  {
  }

  lemma FreedTrans(b0: seq<bool>, p0: seq<Proc>, b1: seq<bool>, p1: seq<Proc>, b2: seq<bool>, p2: seq<Proc>)
    requires FreedBy(b0, p0, b1, p1) && FewerRows(p0, p1) && FreedBy(b1, p1, b2, p2) && FewerRows(p1, p2)
    ensures FreedBy(b0, p0, b2, p2) && FewerRows(p0, p2)
  {
    forall k: nat ensures Unfreed(p0, p2, k) <==> Unfreed(p0, p1, k) && Unfreed(p1, p2, k) {
      forall j | 0 <= j < |p0| ensures Owns(p1[j], k) <==> p1[j].used && Owns(p0[j], k) && p0[j].used {
      }
    }
    hide Owns;
  }

  /** Giving up one row frees what it owned. */
  lemma ReapFrees(bits: seq<bool>, ps: seq<Proc>, i: nat)
    requires i < |ps| && ps[i].used
    ensures FreedBy(bits, ps, Reaped(bits, ps[i]), ps[i := Dropped(ps[i])]) && FewerRows(ps, ps[i := Dropped(ps[i])])
  {
    var ps' := ps[i := Dropped(ps[i])];
    forall k: nat ensures Unfreed(ps, ps', k) <==> !Owns(ps[i], k) {
    }
  }

  lemma OwnsNothing(p: Proc)
    ensures forall k: nat :: !Owns(Dropped(p), k)
  {
  }

  lemma OwnRun(l: Layout, m: seq<byte>, bits: seq<bool>, ps: seq<Proc>, i: nat, s: nat, n: nat)
    requires Marked(bits, ps) && OwnersApart(ps) && i < |ps| && n > 0 && LentOk(l, m, bits, ps)
    requires forall k: nat :: s <= k < s + n ==> Owns(ps[i], k)
    ensures Unowned(l, ps[i := Dropped(ps[i])], s, n) && s + n <= |bits|
  {
    OwnsNothing(ps[i]);
    hide Owns;
    assert Owns(ps[i], s + n - 1);
    forall j, k: nat | 0 <= j < |ps| && j != i && s <= k < s + n ensures !Owns(ps[j], k) {
      assert Owns(ps[i], k);
    }
  }
}
