/** One memory, one page map: processes and the in-memory file system side by side. */
module Machine {
  import opened Wrappers
  import opened Bytes
  import opened Pages
  import opened ProcImages
  import opened ProcTable
  import opened ProcKernel
  import opened ElfFile
  import opened ProcRun
  import VfsTree
  import VfsFiles
  import Vfs

  type Nodes = seq<VfsTree.Node>

  // ---- whose pages ----

  /** The pages files own, and what they hold. */
  ghost function Lent(l: Layout, m: seq<byte>, ns: Nodes): map<nat, seq<byte>> {
    map p: nat | p < l.count && VfsFiles.Owned(ns, p) :: PageOf(l, m, p)
  }

  /** The pages that are taken and no file's: those of processes, and what was lost to everybody. */
  ghost function Others(ns: Nodes, bits: seq<bool>): (f: seq<bool>)
    ensures |f| == |bits| && forall p :: 0 <= p < |bits| ==> f[p] == (bits[p] && !VfsFiles.Owned(ns, p))
  {
    seq(|bits|, p requires 0 <= p < |bits| => bits[p] && !VfsFiles.Owned(ns, p))
  }

  ghost function HeapOf(l: Layout, m: seq<byte>): seq<byte> {
    if l.heap + Size(l.count) <= |m| then m[l.heap..l.heap + Size(l.count)] else []
  }

  /** Both sides in order, on the same pages, each knowing what the other one has. */
  ghost predicate Joint(k: Kernel, v: Vfs.Volume)
    reads k, k.ram, k.pm, k.pm.cells, k.procs, v, v.nodes, v.fds, v.pages, v.pages.cells, v.ram
  {
    && k.Mem() && v.Sound() && v.ram == k.ram && v.pages == k.pm && v.heap == k.l.heap
    && k.l.lent == Lent(k.l, k.ram.bytes, v.nodes[..]) && v.foreign == Others(v.nodes[..], k.pm.Bits())
  }

  // ---- page runs ----

  /** Whom a run of pages may belong to. */
  datatype Owner = File(node: nat) | Shadow(row: nat) | UserStack(row: nat) | KernelStack(row: nat)

  ghost predicate Has(ns: Nodes, ps: seq<Proc>, o: Owner, p: nat) {
    match o
    case File(i) => VfsFiles.Owns(ns, i, p)
    case Shadow(i) => i < |ps| && ps[i].used && InRun(ps[i].shadow, ps[i].pages, p)
    case UserStack(i) => i < |ps| && ps[i].used && InRun(ps[i].ustack, ps[i].ustackPages, p)
    case KernelStack(i) => i < |ps| && ps[i].used && InRun(ps[i].kstack, KSTACK_PAGES, p)
  }

  lemma HasMarks(l: Layout, m: seq<byte>, bits: seq<bool>, ps: seq<Proc>, ns: Nodes, foreign: seq<bool>, p: nat,
                 o: Owner)
    requires MemOk(l, m, bits, ps) && l.lent == Lent(l, m, ns) && Vfs.Good(ns, bits, foreign) && Has(ns, ps, o, p)
    ensures Taken(bits, p) && (o.File? <==> VfsFiles.Owned(ns, p)) && (!o.File? ==> o.row < |ps| && Owns(ps[o.row], p))
  {
    hide RowsOk, OwnersApart, ImagesApart, LentOk, VfsTree.Tree, VfsTree.Rooted, VfsFiles.Apart, VfsFiles.Held;
    LentFacts(l, m, bits, ps);
    if !o.File? {
      assert Owns(ps[o.row], p);
    }
  }

  /** The runs of one row are disjoint, and so are those of two rows. */
  lemma RowsOnce(l: Layout, top: nat, ps: seq<Proc>, p: nat, a: Owner, b: Owner)
    requires RowsOk(l, top, ps) && OwnersApart(ps) && !a.File? && !b.File? && Has([], ps, a, p) && Has([], ps, b, p)
    ensures a == b
  {
    assert Owns(ps[a.row], p) && Owns(ps[b.row], p) && RowOk(l, top, ps[a.row]);
  }

  /** Every page of a file, a shadow or a stack is marked and is no other's. */
  lemma PagesApart(k: Kernel, v: Vfs.Volume, p: nat, a: Owner, b: Owner)
    requires Joint(k, v) && Has(v.nodes[..], k.procs[..], a, p)
    ensures Taken(k.pm.Bits(), p)
    ensures Has(v.nodes[..], k.procs[..], b, p) ==> a == b
  {
    var ns, ps, bits := v.nodes[..], k.procs[..], k.pm.Bits();
    hide PageMap.Bits, LentOk, ImagesApart, TableOk, VfsTree.Tree, VfsTree.Rooted, VfsFiles.Held, Vfs.FdsOk,
         Vfs.KeptFor, Taken, VfsFiles.Owned;
    HasMarks(k.l, k.ram.bytes, bits, ps, ns, v.foreign, p, a);
    if Has(ns, ps, b, p) {
      HasMarks(k.l, k.ram.bytes, bits, ps, ns, v.foreign, p, b);
      if !a.File? && !b.File? {
        RowsOnce(k.l, |k.ram.bytes|, ps, p, a, b);
      }
    }
  }

  // ---- what one side's step means to the other ----

  lemma PageByte(l: Layout, m: seq<byte>, m': seq<byte>, p: nat, x: nat)
    requires PageOf(l, m', p) == PageOf(l, m, p) && p < l.count && l.heap + Size(l.count) <= |m| == |m'| && x < PAGE
    ensures l.heap + Size(p) + x < |m| && m'[l.heap + Size(p) + x] == m[l.heap + Size(p) + x]
  {
    assert PageOf(l, m, p)[x] == m[l.heap + Size(p) + x] && PageOf(l, m', p)[x] == m'[l.heap + Size(p) + x];
  }

  lemma HeapByte(l: Layout, m: seq<byte>, m': seq<byte>, y: nat)
    requires y / PAGE < l.count && l.heap + Size(l.count) <= |m| == |m'|
    requires PageOf(l, m', y / PAGE) == PageOf(l, m, y / PAGE)
    ensures y < |HeapOf(l, m)| == |HeapOf(l, m')| && HeapOf(l, m')[y] == HeapOf(l, m)[y]
  {
    PageByte(l, m, m', y / PAGE, y % PAGE);
    assert Size(y / PAGE) + y % PAGE == y;
    Vfs.RunWithin(y / PAGE, 1, l.count);
  }

  /** A file whose pages hold what they held has the bytes it had. */
  lemma DataOfPages(l: Layout, m: seq<byte>, m': seq<byte>, n: VfsTree.Node)
    requires l.heap + Size(l.count) <= |m| == |m'| && n.size <= Size(n.cap) && (n.cap > 0 ==> n.at + n.cap <= l.count)
    requires forall p :: n.at <= p < n.at + n.cap ==> PageOf(l, m', p) == PageOf(l, m, p)
    ensures VfsFiles.Data(n, HeapOf(l, m')) == VfsFiles.Data(n, HeapOf(l, m))
  {
    if n.size > 0 {
      Vfs.RunWithin(n.at, n.cap, l.count);
      var h, h' := HeapOf(l, m), HeapOf(l, m');
      hide PageOf, HeapOf;
      forall y | Size(n.at) <= y < Size(n.at) + n.size ensures h'[y] == h[y] {
        Vfs.PageIn(y, n.at, n.cap);
        HeapByte(l, m, m', y);
      }
      assert h'[Size(n.at)..Size(n.at) + n.size] == h[Size(n.at)..Size(n.at) + n.size];
    }
  }

  /**
   * After a step of the processes the files are what they were, and the taken pages that are not theirs are the
   * others'.
   */
  lemma AfterKernel(l: Layout, ns: Nodes, m: seq<byte>, bits: seq<bool>, foreign: seq<bool>, m': seq<byte>,
                    bits': seq<bool>, ps: seq<Proc>)
    requires Vfs.Good(ns, bits, foreign) && |bits| == l.count && l.lent == Lent(l, m, ns) && |m'| == |m|
    requires MemOk(l, m', bits', ps)
    ensures Vfs.Good(ns, bits', Others(ns, bits')) && l.lent == Lent(l, m', ns)
    ensures forall i :: 0 <= i < |ns| && ns[i].used ==>
      VfsFiles.Data(ns[i], HeapOf(l, m')) == VfsFiles.Data(ns[i], HeapOf(l, m))
  {
    hide RowsOk, Marked, OwnersApart, ImagesApart, LentOk, Owns, VfsTree.Tree, VfsTree.Rooted, VfsFiles.Data,
         VfsFiles.Owns, PageOf, HeapOf;
    LentFacts(l, m', bits', ps);
    LentPages(l, m', bits', ps);
    forall p: nat | p < l.count && VfsFiles.Owned(ns, p) ensures PageOf(l, m', p) == PageOf(l, m, p) && Taken(bits', p)
    {
      assert p in l.lent;
    }
    forall i: nat, p: nat | VfsFiles.Owns(ns, i, p) ensures p < |bits'| && bits'[p] && !Others(ns, bits')[p] {
      assert VfsFiles.Owned(ns, p);
    }
    forall i | 0 <= i < |ns| && ns[i].used
      ensures VfsFiles.Data(ns[i], HeapOf(l, m')) == VfsFiles.Data(ns[i], HeapOf(l, m))
    {
      VfsFiles.InMemory(ns, bits, foreign, i);
      OwnPages(ns, i);
      DataOfPages(l, m, m', ns[i]);
    }
  }

  lemma OwnPages(ns: Nodes, i: nat)
    requires i < |ns| && ns[i].used
    ensures forall p: nat :: ns[i].at <= p < ns[i].at + ns[i].cap ==> VfsFiles.Owned(ns, p)
  {
    forall p: nat | ns[i].at <= p < ns[i].at + ns[i].cap ensures VfsFiles.Owned(ns, p) {
      assert VfsFiles.Owns(ns, i, p);
    }
  }

  lemma LentPages(l: Layout, m: seq<byte>, bits: seq<bool>, ps: seq<Proc>)
    requires LentOk(l, m, bits, ps)
    ensures forall p :: p in l.lent ==> PageOf(l, m, p) == l.lent[p]
  {
    hide Owns, PageOf, Taken;
    forall p | p in l.lent ensures PageOf(l, m, p) == l.lent[p] {
      assert LentPage(l, m, bits, ps, p);
    }
  }

  /** The layout with what files have now. */
  function Relent(l: Layout, ghost now: map<nat, seq<byte>>): Layout { l.(lent := now) }

  /** Pages of a process are among the others'. */
  lemma RowsOthers(l: Layout, m: seq<byte>, bits: seq<bool>, ps: seq<Proc>, ns: Nodes, foreign: seq<bool>)
    requires MemOk(l, m, bits, ps) && l.lent == Lent(l, m, ns) && VfsFiles.Accounts(ns, bits, foreign)
    ensures |foreign| == l.count
    ensures forall j, p: nat {:trigger Owns(ps[j], p)} :: 0 <= j < |ps| && Owns(ps[j], p) ==>
      p < |foreign| && foreign[p]
  {
    hide RowsOk, OwnersApart, ImagesApart, LentOk, Owns, PageOf;
    LentFacts(l, m, bits, ps);
    forall j, p: nat | 0 <= j < |ps| && Owns(ps[j], p) ensures p < |foreign| && foreign[p] {
      assert Taken(bits, p);
      assert !(p in l.lent);
    }
  }

  /** What lies where files have no pages is as it was. */
  lemma Untouched(m: seq<byte>, m': seq<byte>, held: seq<byte>, heap: nat, foreign: seq<bool>, a: nat, n: nat)
    requires Vfs.KeptFor(m, held, heap, foreign) && Vfs.KeptFor(m', held, heap, foreign)
    requires forall x :: a <= x < a + n ==> Vfs.Elsewhere(x, heap, foreign)
    ensures Sub(m', a, n) == Sub(m, a, n)
  {
    hide Vfs.Elsewhere;
    if a + n <= |m| {
      forall x | 0 <= x < n ensures Sub(m', a, n)[x] == Sub(m, a, n)[x] {
        assert Vfs.Elsewhere(a + x, heap, foreign);
      }
    }
  }

  /** An address in a shadow is one where no file has pages. */
  lemma ShadowElsewhere(l: Layout, foreign: seq<bool>, p: Proc, x: nat)
    requires p.used && p.shadow.Some?
    requires forall q: nat {:trigger Owns(p, q)} :: Owns(p, q) ==> q < |foreign| && foreign[q]
    requires l.Addr(p.shadow.value) <= x < l.Addr(p.shadow.value) + Size(p.pages)
    ensures Vfs.Elsewhere(x, l.heap, foreign)
  {
    Vfs.PageIn(x - l.heap, p.shadow.value, p.pages);
    assert Owns(p, (x - l.heap) / PAGE);
  }

  lemma AboveElsewhere(heap: nat, foreign: seq<bool>, x: nat)
    requires x >= heap + Size(|foreign|)
    ensures Vfs.Elsewhere(x, heap, foreign)
  {
  }

  /** The image of a process is as it was. */
  lemma ImageUntouched(l: Layout, m: seq<byte>, m': seq<byte>, held: seq<byte>, foreign: seq<bool>, p: Proc)
    requires Vfs.KeptFor(m, held, l.heap, foreign) && Vfs.KeptFor(m', held, l.heap, foreign) && l.Valid()
    requires |foreign| == l.count
    requires RowOk(l, |m|, p) && Alive(p)
    requires forall q: nat {:trigger Owns(p, q)} :: Owns(p, q) ==> q < |foreign| && foreign[q]
    ensures Img(l, m', p) == Img(l, m, p)
  {
    hide Vfs.KeptFor, Vfs.Elsewhere, Sub;
    if p.evicted {
      var s := p.shadow.value;
      forall x | l.Addr(s) <= x < l.Addr(s) + Size(p.pages) ensures Vfs.Elsewhere(x, l.heap, foreign) {
        ShadowElsewhere(l, foreign, p, x);
      }
      Untouched(m, m', held, l.heap, foreign, l.Addr(s), Size(p.pages));
    } else {
      forall x: nat | p.image <= x < p.image + Size(p.pages) ensures Vfs.Elsewhere(x, l.heap, foreign) {
        AboveElsewhere(l.heap, foreign, x);
      }
      Untouched(m, m', held, l.heap, foreign, p.image, Size(p.pages));
    }
  }

  /** After a file system call the processes are what they were, and the files' pages are the ones lent. */
  lemma AfterFiles(l: Layout, m: seq<byte>, bits: seq<bool>, ps: seq<Proc>, ns: Nodes, foreign: seq<bool>,
                   held: seq<byte>, m': seq<byte>, bits': seq<bool>, ns': Nodes)
    requires MemOk(l, m, bits, ps) && l.lent == Lent(l, m, ns) && VfsFiles.Accounts(ns, bits, foreign)
    requires VfsFiles.Accounts(ns', bits', foreign)
    requires Vfs.KeptFor(m, held, l.heap, foreign) && Vfs.KeptFor(m', held, l.heap, foreign)
    ensures MemOk(Relent(l, Lent(l, m', ns')), m', bits', ps) && SameImages(l, m, ps, m', ps)
    ensures foreign == Others(ns', bits')
  {
    RowsOthers(l, m, bits, ps, ns, foreign);
    var l' := Relent(l, Lent(l, m', ns'));
    forall j | 0 <= j < |ps| ensures RowOk(l', |m'|, ps[j]) && (Alive(ps[j]) ==> Img(l, m', ps[j]) == Img(l, m, ps[j]))
    {
      assert RowOk(l, |m|, ps[j]);
      if Alive(ps[j]) {
        forall q: nat | Owns(ps[j], q) ensures q < |foreign| && foreign[q] {
          assert Owns(ps[j], q);
        }
        ImageUntouched(l, m, m', held, foreign, ps[j]);
      }
    }
    hide RowOk, Owns, OwnersApart, ImagesApart, Img, PageOf, Vfs.KeptFor, VfsFiles.Apart;
    forall p | p in l'.lent ensures LentPage(l', m', bits', ps, p) {
      assert VfsFiles.Owned(ns', p) && bits'[p] && !foreign[p];
    }
  }

  // ---- both at work ----

  datatype Call = MakeDir(path: string) | PutFile(path: string, data: seq<byte>) | Open(path: string, flags: Vfs.Flags)
                | Read(fd: int, n: nat) | WriteTo(fd: int, buf: seq<byte>) | Close(fd: int) | Remove(path: string)

  datatype Act = Process(step: Step) | FileSystem(call: Call)

  /** The node table, the descriptors, and what the pages hold. */
  datatype Files = Files(ns: Nodes, fs: seq<Vfs.Fd>, heap: seq<byte>, bits: seq<bool>)

  /** What a path leads to. */
  ghost function Seen(f: Files, path: seq<string>): VfsFiles.Entry { VfsFiles.View(f.ns, f.heap, path) }

  ghost function FilesOf(v: Vfs.Volume): Files
    requires v.pages.Valid()
    reads v, v.nodes, v.fds, v.pages, v.pages.cells, v.ram
  {
    Files(v.nodes[..], v.fds[..], v.Heap(), v.pages.Bits())
  }

  /** The call shortens or removes what a descriptor still needs. */
  ghost predicate Strands(c: Call, f: Files) {
    match c
    case PutFile(path, data) =>
      Vfs.WriteStatus(f.ns, f.bits, path, |data|).Fine? && Vfs.Needed(f.ns, f.fs, path, |data| + 1)
    case Open(path, flags) =>
      flags.trunc && flags.write && Seen(f, Vfs.Resolve(path)).File? && Vfs.Needed(f.ns, f.fs, path, 1)
    case Remove(path) => Vfs.UnlinkStatus(f.ns, path).Fine? && Vfs.Needed(f.ns, f.fs, path, 0)
    case _ => false
  }

  /** What a path leads to after a call. */
  ghost function After(c: Call, f: Files, q: seq<string>): VfsFiles.Entry {
    match c
    case MakeDir(path) =>
      if q == Vfs.Resolve(path) && Vfs.MkdirStatus(f.ns, path).Fine? then VfsFiles.Dir else Seen(f, q)
    case PutFile(path, data) =>
      if q != Vfs.Resolve(path) then Seen(f, q)
      else if Vfs.WriteStatus(f.ns, f.bits, path, |data|).Fine? then VfsFiles.File(data)
      else if Vfs.Creates(f.ns, path) then VfsFiles.File([])
      else Seen(f, q)
    case Open(path, flags) =>
      if q == Vfs.Resolve(path) then Vfs.Opened(Seen(f, q), flags, Vfs.Creates(f.ns, path)) else Seen(f, q)
    case WriteTo(fd, buf) => Written(f, fd, buf, q)
    case Remove(path) =>
      if q == Vfs.Resolve(path) && Vfs.UnlinkStatus(f.ns, path).Fine? then VfsFiles.Gone else Seen(f, q)
    case _ => Seen(f, q)
  }

  ghost function Written(f: Files, fd: int, buf: seq<byte>, q: seq<string>): VfsFiles.Entry {
    if !Vfs.WriteResult(f.ns, f.fs, f.bits, fd, |buf|).Ok? || f.fs[fd].node >= |f.ns| then Seen(f, q)
    else
      var was := VfsFiles.Data(f.ns[f.fs[fd].node], f.heap);
      if VfsTree.Find(f.ns, 0, q) == Some(f.fs[fd].node) && f.fs[fd].offset <= |was|
      then VfsFiles.File(Overwrite(was, f.fs[fd].offset, buf)) else Seen(f, q)
  }

  /** The descriptors after a call that opens nothing. */
  ghost function FdsAfter(c: Call, f: Files): seq<Vfs.Fd> {
    match c
    case Read(fd, n) =>
      if 0 <= fd < |f.fs| && f.fs[fd].used && f.fs[fd].flags.read && f.fs[fd].node < |f.ns|
        && !f.ns[f.fs[fd].node].isDir
      then
        var size, end := |VfsFiles.Data(f.ns[f.fs[fd].node], f.heap)|, f.fs[fd].offset + n;
        f.fs[fd := f.fs[fd].(offset := if end <= size then end else size)]
      else f.fs
    case WriteTo(fd, buf) =>
      if Vfs.WriteResult(f.ns, f.fs, f.bits, fd, |buf|).Ok?
        then f.fs[fd := f.fs[fd].(offset := f.fs[fd].offset + |buf|)]
      else f.fs
    case Close(fd) => if 0 <= fd < |f.fs| && f.fs[fd].used then f.fs[fd := f.fs[fd].(used := false)] else f.fs
    case _ => f.fs
  }

  /** The call changed what paths lead to and the descriptors as it should. */
  ghost predicate Made(c: Call, a: Files, b: Files) {
    && |a.fs| == Vfs.MAX_FD
    && (forall q :: Seen(b, q) == After(c, a, q))
    && (if !c.Open? then b.fs == FdsAfter(c, a)
        else
          var r := Vfs.OpenResult(After(c, a, Vfs.Resolve(c.path)), c.flags, a.fs);
          if r.Bad? then b.fs == a.fs else Vfs.OpenedAs(b.ns, a.fs, b.fs, c.path, r.v, c.flags))
  }

  // ---- calls ----

  /** Whether every descriptor has what it needs. */
  method InOrder(v: Vfs.Volume) returns (b: bool)
    requires v.Sound()
    ensures b <==> v.Valid()
  {
    hide PageMap.Bits, Vfs.Good, Vfs.KeptFor;
    for d := 0 to v.fds.Length
      invariant forall e :: 0 <= e < d && v.fds[e].used ==> FdFine(v.nodes[..], v.fds[e])
    {
      var f := v.fds[d];
      if f.used && !(f.node < v.nodes.Length && v.nodes[f.node].used && f.offset <= v.nodes[f.node].size) {
        return false;
      }
    }
    return true;
  }

  predicate FdFine(ns: Nodes, f: Vfs.Fd) { f.node < |ns| && ns[f.node].used && f.offset <= ns[f.node].size }

  method PutCall(v: Vfs.Volume, path: string, data: seq<byte>)
    requires v.Valid()
    modifies v.nodes, v.pages.cells, v.ram
    ensures v.Sound() && Made(PutFile(path, data), old(FilesOf(v)), FilesOf(v))
    ensures v.Valid() <==> !Strands(PutFile(path, data), old(FilesOf(v)))
  {
    hide PageMap.Bits, Vfs.Good, Vfs.KeptFor, Vfs.FdsOk, VfsTree.Find, Vfs.Resolve, VfsFiles.View, Vfs.Creates,
         Vfs.WriteStatus, VfsFiles.Data, Vfs.Needed;
    ghost var was := FilesOf(v);
    var _ := v.WriteFile(path, data);
    forall q ensures Seen(FilesOf(v), q) == After(PutFile(path, data), was, q) {
      assert Seen(FilesOf(v), q) == v.Sees(q) && Seen(was, q) == old(v.Sees(q));
    }
  }

  method OpenCall(v: Vfs.Volume, path: string, flags: Vfs.Flags)
    requires v.Valid()
    modifies v.nodes, v.fds, v.pages.cells, v.ram
    ensures v.Sound() && Made(Open(path, flags), old(FilesOf(v)), FilesOf(v))
    ensures v.Valid() <==> !Strands(Open(path, flags), old(FilesOf(v)))
  {
    hide PageMap.Bits, Vfs.Good, Vfs.KeptFor, Vfs.FdsOk, VfsTree.Find, Vfs.Resolve, VfsFiles.View, Vfs.Creates,
         VfsFiles.Data, Vfs.OpenResult, Vfs.OpenedAs, Vfs.Opened, Vfs.Needed;
    ghost var was := FilesOf(v);
    var _ := v.Open(path, flags);
    forall q ensures Seen(FilesOf(v), q) == After(Open(path, flags), was, q) {
      assert Seen(FilesOf(v), q) == v.Sees(q) && Seen(was, q) == old(v.Sees(q));
    }
  }

  method RemoveCall(v: Vfs.Volume, path: string)
    requires v.Valid()
    modifies v.nodes, v.pages.cells, v.ram
    ensures v.Sound() && Made(Remove(path), old(FilesOf(v)), FilesOf(v))
    ensures v.Valid() <==> !Strands(Remove(path), old(FilesOf(v)))
  {
    hide PageMap.Bits, Vfs.Good, Vfs.KeptFor, Vfs.FdsOk, VfsTree.Find, Vfs.Resolve, VfsFiles.View, VfsFiles.Data,
         Vfs.UnlinkStatus, Vfs.Needed;
    ghost var was := FilesOf(v);
    var _ := v.Unlink(path);
    forall q ensures Seen(FilesOf(v), q) == After(Remove(path), was, q) {
      assert Seen(FilesOf(v), q) == v.Sees(q) && Seen(was, q) == old(v.Sees(q));
    }
  }

  method ReadCall(v: Vfs.Volume, fd: int, n: nat)
    requires v.Valid()
    modifies v.fds
    ensures v.Valid() && Made(Read(fd, n), old(FilesOf(v)), FilesOf(v))
  {
    hide PageMap.Bits, Vfs.Good, Vfs.KeptFor, Vfs.FdsOk, VfsTree.Find, VfsFiles.View, VfsFiles.Data;
    if fd < Vfs.FIRST_FAT_FD {
      NodeThere(v.nodes[..], v.fds[..], fd);
      var _ := v.Read(fd, n);
    }
  }

  lemma NodeThere(ns: Nodes, fs: seq<Vfs.Fd>, fd: int)
    requires Vfs.FdsOk(ns, fs)
    ensures 0 <= fd < |fs| && fs[fd].used ==> fs[fd].node < |ns| && ns[fs[fd].node].used
  {
  }

  method WriteCall(v: Vfs.Volume, fd: int, buf: seq<byte>)
    requires v.Valid()
    modifies v.nodes, v.fds, v.pages.cells, v.ram
    ensures v.Valid() && Made(WriteTo(fd, buf), old(FilesOf(v)), FilesOf(v))
  {
    hide PageMap.Bits, Vfs.KeptFor, VfsTree.Find, VfsFiles.View, VfsFiles.Data, Vfs.FdsOk, VfsFiles.Accounts,
         VfsTree.Tree, VfsFiles.Held, Overwrite;
    ghost var was := FilesOf(v);
    if fd < Vfs.FIRST_FAT_FD {
      NodeThere(was.ns, was.fs, fd);
      var r := v.Write(fd, buf);
      if r.Ok? {
        assert VfsTree.HasPath(was.ns, was.fs[fd].node);
        ghost var p :| VfsTree.Find(was.ns, 0, p) == Some(was.fs[fd].node);
      }
      forall q ensures Seen(FilesOf(v), q) == After(WriteTo(fd, buf), was, q) {
        assert Seen(FilesOf(v), q) == v.Sees(q) && Seen(was, q) == old(v.Sees(q));
      }
    }
  }

  /** Makes a call. Descriptors stay in order unless it shortens or removes what one of them still needs. */
  method Perform(v: Vfs.Volume, c: Call)
    requires v.Valid()
    modifies v.nodes, v.fds, v.pages.cells, v.ram
    ensures v.Sound() && Made(c, old(FilesOf(v)), FilesOf(v))
    ensures v.Valid() <==> !Strands(c, old(FilesOf(v)))
  {
    hide PageMap.Bits, Vfs.Good, Vfs.KeptFor, Vfs.FdsOk, VfsTree.Find, Vfs.Resolve, VfsFiles.View, VfsFiles.Data,
         Vfs.MkdirStatus, Vfs.Needed, Vfs.WriteStatus, Vfs.UnlinkStatus;
    match c
    case MakeDir(path) =>
      ghost var was := FilesOf(v);
      var _ := v.Mkdir(path);
      forall q ensures Seen(FilesOf(v), q) == After(c, was, q) {
        assert Seen(FilesOf(v), q) == v.Sees(q) && Seen(was, q) == old(v.Sees(q));
      }
    case PutFile(path, data) =>
      PutCall(v, path, data);
    case Open(path, flags) =>
      OpenCall(v, path, flags);
    case Read(fd, n) =>
      ReadCall(v, fd, n);
    case WriteTo(fd, buf) =>
      WriteCall(v, fd, buf);
    case Close(fd) =>
      if fd < Vfs.FIRST_FAT_FD {
        var _ := v.Close(fd);
      }
    case Remove(path) =>
      RemoveCall(v, path);
  }

  // ---- both at work ----

  /** Both sides at one moment. */
  datatype Scene = Scene(m: Moment, f: Files)

  ghost function SceneOf(k: Kernel, v: Vfs.Volume): Scene
    requires k.pm.Valid() && v.pages.Valid()
    reads k, k.pm, k.pm.cells, k.procs, v, v.nodes, v.fds, v.pages, v.pages.cells, v.ram
  {
    Scene(k.Now(), FilesOf(v))
  }

  /**
   * The act took the one scene to the other. A process step is what it comes to, and changes no file; a call does to
   * paths and descriptors what it should, and changes nothing of the processes but which of their pages are taken.
   */
  ghost predicate Acted(l: Layout, act: Act, a: Scene, b: Scene)
    requires a.m.current < |a.m.ps|
  {
    match act
    case Process(s) =>
      && Did(l, s, a.m, b.m) && b.f.ns == a.f.ns && b.f.fs == a.f.fs && forall q :: Seen(b.f, q) == Seen(a.f, q)
    case FileSystem(c) =>
      && b.m == a.m.(bits := b.m.bits) && Made(c, a.f, b.f) && Others(b.f.ns, b.m.bits) == Others(a.f.ns, a.m.bits)
  }

  ghost function ActStore(act: Act, a: Scene): seq<Write> { if act.Process? then StoreOf(act.step, a.m) else [] }

  ghost function ActLoad(l: Layout, act: Act, a: Scene): map<nat, seq<byte>> {
    if act.Process? then LoadOf(l, act.step, a.m) else map[]
  }

  /** All stores, in order. */
  ghost function StoresOf(acts: seq<Act>, hist: seq<Scene>): seq<Write>
    requires |acts| <= |hist|
  {
    var n := |acts| - 1;
    if n < 0 then [] else StoresOf(acts[..n], hist) + ActStore(acts[n], hist[n])
  }

  /** All processes that were started. */
  ghost function LoadsOf(l: Layout, acts: seq<Act>, hist: seq<Scene>): map<nat, seq<byte>>
    requires |acts| <= |hist|
  {
    var n := |acts| - 1;
    if n < 0 then map[] else LoadsOf(l, acts[..n], hist) + ActLoad(l, acts[n], hist[n])
  }

  ghost predicate Played(l: Layout, acts: seq<Act>, hist: seq<Scene>) {
    && |hist| == |acts| + 1
    && forall i :: 0 <= i < |acts| ==> hist[i].m.current < |hist[i].m.ps| && Acted(l, acts[i], hist[i], hist[i + 1])
  }

  /** The act leaves the wait stack out of order, or a descriptor without what it needs. */
  ghost predicate ActUpsets(act: Act, a: Scene) {
    match act
    case Process(s) => a.m.current < |a.m.ps| && Upsets(s, a.m)
    case FileSystem(c) => Strands(c, a.f)
  }

  /** Every store was its own process's doing if and only if none was made where another image lay. */
  lemma {:induction false} StoresPrivate(acts: seq<Act>, hist: seq<Scene>)
    requires |acts| <= |hist| && forall i :: 0 <= i < |acts| ==> Sound(hist[i].m)
    ensures OwnDoing(StoresOf(acts, hist)) <==>
      forall i :: 0 <= i < |acts| && acts[i].Process? && acts[i].step.Put? ==> Private(hist[i].m, acts[i].step.a)
    decreases |acts|
  {
    hide Sound, StoreOf, Private;
    if acts != [] {
      var n := |acts| - 1;
      StoresPrivate(acts[..n], hist);
      if acts[n].Process? {
        StorePrivately(acts[n].step, hist[n].m);
      }
      OwnBoth(StoresOf(acts[..n], hist), ActStore(acts[n], hist[n]));
      assert forall i :: 0 <= i < n ==> acts[..n][i] == acts[i];
    }
  }

  lemma PlayedOn(l: Layout, acts: seq<Act>, n: nat, hist: seq<Scene>, b: Scene)
    requires n < |acts| && Played(l, acts[..n], hist) && hist[n].m.current < |hist[n].m.ps|
    requires Acted(l, acts[n], hist[n], b)
    ensures var h := hist + [b];
      && |hist| == n + 1 && Played(l, acts[..n + 1], h)
      && StoresOf(acts[..n + 1], h) == StoresOf(acts[..n], hist) + ActStore(acts[n], hist[n])
      && LoadsOf(l, acts[..n + 1], h) == LoadsOf(l, acts[..n], hist) + ActLoad(l, acts[n], hist[n])
  {
    hide Acted, ActStore, ActLoad;
    assert acts[..n + 1][..n] == acts[..n];
    SamePart(l, acts[..n], hist, hist + [b]);
    forall i | 0 <= i < n + 1 ensures Acted(l, acts[i], (hist + [b])[i], (hist + [b])[i + 1]) {
      if i < n {
        assert acts[..n][i] == acts[i];
      }
    }
  }

  lemma {:induction false} SamePart(l: Layout, acts: seq<Act>, hist: seq<Scene>, hist': seq<Scene>)
    requires |acts| <= |hist| <= |hist'| && hist == hist'[..|hist|]
    ensures StoresOf(acts, hist') == StoresOf(acts, hist) && LoadsOf(l, acts, hist') == LoadsOf(l, acts, hist)
    decreases |acts|
  {
    hide ActStore, ActLoad;
    if acts != [] {
      SamePart(l, acts[..|acts| - 1], hist, hist');
    }
  }

  /** The start: one process without an image, the root directory, all pages free. */
  method Boot(layout: Layout, memory: Ram, slots: nat) returns (k: Kernel, v: Vfs.Volume)
    requires layout.Valid() && layout.base <= |memory.bytes| && slots > 0 && layout.lent == map[]
    ensures Joint(k, v) && v.Valid() && Kept(k, map[], []) && k.ram == memory && k.l == layout
    ensures fresh(k) && fresh(k.procs) && fresh(k.pm) && fresh(k.pm.cells)
    ensures fresh(v) && fresh(v.nodes) && fresh(v.fds)
    ensures k.Now() == FirstMoment(layout, slots) && v.nodes[..] == Vfs.RootOnly()
    ensures forall d :: 0 <= d < v.fds.Length ==> !v.fds[d].used
  {
    hide TableOk, Img, PageMap.Bits;
    k := new Kernel(layout, memory, slots);
    v := new Vfs.Volume(k.pm, memory, layout.heap);
    NothingLent(layout, memory.bytes, k.pm.Bits(), v.nodes[..]);
  }

  function FirstMoment(l: Layout, slots: nat): Moment
    requires slots > 0
  {
    Moment(seq(l.count, _ => false), FirstRows(slots), 0, [], 2)
  }

  lemma NothingLent(l: Layout, m: seq<byte>, bits: seq<bool>, ns: Nodes)
    requires ns == Vfs.RootOnly()
    ensures Lent(l, m, ns) == map[] && Others(ns, bits) == bits
  {
    assert forall p: nat :: !VfsFiles.Owned(ns, p);
  }

  /** The file system takes note of which pages the processes have now. */
  ghost method TakeNote(k: Kernel, v: Vfs.Volume, m: seq<byte>, bits: seq<bool>)
    requires k.Mem() && v.ram == k.ram && v.pages == k.pm && v.heap == k.l.heap
    requires v.nodes.Length == Vfs.MAX_NODES && v.fds.Length == Vfs.MAX_FD
    requires Vfs.Good(v.nodes[..], bits, v.foreign) && |bits| == k.l.count
    requires k.l.lent == Lent(k.l, m, v.nodes[..]) && |k.ram.bytes| == |m|
    modifies v
    ensures Joint(k, v)
    ensures forall q :: v.Sees(q) == VfsFiles.View(v.nodes[..], HeapOf(k.l, m), q)
  {
    hide PageMap.Bits, Lent, Others, Vfs.Good, Vfs.FdsOk, VfsFiles.View, VfsFiles.Data, MemOk;
    ghost var ns, bits' := v.nodes[..], k.pm.Bits();
    AfterKernel(k.l, ns, m, bits, v.foreign, k.ram.bytes, bits', k.procs[..]);
    v.foreign, v.held := Others(ns, bits'), k.ram.bytes;
    HeapRoom(k.l, k.ram.bytes, bits', k.procs[..]);
    Vfs.GoodTree(ns, bits', v.foreign);
    forall q ensures v.Sees(q) == VfsFiles.View(ns, HeapOf(k.l, m), q) {
      Vfs.ViewSame(ns, HeapOf(k.l, m), v.Heap(), q);
    }
  }

  lemma HeapRoom(l: Layout, m: seq<byte>, bits: seq<bool>, ps: seq<Proc>)
    requires MemOk(l, m, bits, ps)
    ensures l.heap + Size(l.count) <= |m|
  {
  }

  /** A step of the processes. */
  method ProcStep(k: Kernel, v: Vfs.Volume, s: Step, ghost loaded: map<nat, seq<byte>>, ghost log: seq<Write>)
    returns (ok: bool, ghost loaded': map<nat, seq<byte>>, ghost log': seq<Write>)
    requires Joint(k, v) && Kept(k, loaded, log) && k.l.base <= USER_LO && StepOk(s, |k.ram.bytes|)
    modifies k, k.ram, k.procs, k.pm.cells, v
    ensures Joint(k, v) && k.current < k.procs.Length && PidsOk(k.procs[..], k.nextPid)
    ensures Accounted(k.l, k.ram.bytes, k.procs[..], loaded', log') && Past(loaded', log', k.nextPid)
    ensures old(SceneOf(k, v)).m.current < |old(SceneOf(k, v)).m.ps|
    ensures Acted(k.l, Process(s), old(SceneOf(k, v)), SceneOf(k, v))
    ensures (ok <==> k.Valid()) && (ok <==> !Upsets(s, old(k.Now()))) && (v.Valid() <==> old(v.Valid()))
    ensures loaded' == loaded + LoadOf(k.l, s, old(k.Now())) && log' == log + StoreOf(s, old(k.Now()))
    ensures k.l == old(k.l) && |k.ram.bytes| == |old(k.ram.bytes)|
  {
    hide MemOk, TableOk, PidsOk, PageMap.Bits, Lent, Others, Vfs.Good, Vfs.FdsOk, Vfs.KeptFor, StepOk, Accounted, Past,
         VfsFiles.View, Did, Upsets, StoreOf, LoadOf;
    ghost var m, bits, was := k.ram.bytes, k.pm.Bits(), FilesOf(v);
    ok, loaded', log' := Do(k, s, loaded, log);
    TakeNote(k, v, m, bits);
    forall q ensures Seen(FilesOf(v), q) == Seen(was, q) {
      assert Seen(FilesOf(v), q) == v.Sees(q);
    }
  }

  /** The processes take note of which pages the files have now. */
  method Lend(k: Kernel, v: Vfs.Volume, ghost m: seq<byte>, ghost bits: seq<bool>, ghost ns: Nodes,
              ghost loaded: map<nat, seq<byte>>, ghost log: seq<Write>)
    requires MemOk(k.l, m, bits, k.procs[..]) && k.pm.Valid() && k.pm.count == k.l.count
    requires TableOk(k.procs[..], k.nextPid, k.stack + [k.current]) && |k.stack| <= BLOCK_MAX
    requires k.current < k.procs.Length && forall i :: 0 <= i < |k.stack| ==> k.stack[i] < k.procs.Length
    requires k.l.lent == Lent(k.l, m, ns) && VfsFiles.Accounts(ns, bits, v.foreign)
    requires Vfs.KeptFor(m, v.held, k.l.heap, v.foreign)
    requires v.Sound() && v.ram == k.ram && v.pages == k.pm && v.heap == k.l.heap
    requires Accounted(k.l, m, k.procs[..], loaded, log) && Past(loaded, log, k.nextPid)
    modifies k`l
    ensures Joint(k, v) && Kept(k, loaded, log)
    ensures k.l == Relent(old(k.l), k.l.lent) && Others(v.nodes[..], k.pm.Bits()) == v.foreign
    ensures SameImages(k.l, m, k.procs[..], k.ram.bytes, k.procs[..])
  {
    hide TableOk, PageMap.Bits, Lent, Others, VfsTree.Tree, VfsTree.Rooted, VfsFiles.Held, Vfs.FdsOk, VfsFiles.Accounts,
         Vfs.KeptFor, Past, MemOk, Img, Replay;
    AfterFiles(k.l, m, bits, k.procs[..], ns, v.foreign, v.held, k.ram.bytes, k.pm.Bits(), v.nodes[..]);
    SameAccount(k.l, m, k.procs[..], k.ram.bytes, loaded, log);
    ghost var now := Lent(k.l, k.ram.bytes, v.nodes[..]);
    RelentSame(k.l, now, k.ram.bytes, v.nodes[..]);
    RelentSame(k.l, now, m, v.nodes[..]);
    k.l := Relent(k.l, now);
  }

  lemma SameAccount(l: Layout, m: seq<byte>, ps: seq<Proc>, m': seq<byte>, loaded: map<nat, seq<byte>>, log: seq<Write>)
    requires Accounted(l, m, ps, loaded, log) && SameImages(l, m, ps, m', ps)
    ensures Accounted(l, m', ps, loaded, log)
  {
    hide Img, Replay;
  }

  /** What is lent changes nothing else. */
  lemma RelentSame(l: Layout, now: map<nat, seq<byte>>, m: seq<byte>, ns: Nodes)
    ensures Lent(Relent(l, now), m, ns) == Lent(l, m, ns)
    ensures forall p: Proc :: Img(Relent(l, now), m, p) == Img(l, m, p)
  {
    assert forall p :: PageOf(Relent(l, now), m, p) == PageOf(l, m, p);
  }

  /** A call to the file system. */
  method FileStep(k: Kernel, v: Vfs.Volume, c: Call, ghost loaded: map<nat, seq<byte>>, ghost log: seq<Write>)
    requires Joint(k, v) && v.Valid() && Kept(k, loaded, log)
    modifies k`l, v.nodes, v.fds, v.pages.cells, v.ram
    ensures Joint(k, v) && Kept(k, loaded, log) && (v.Valid() <==> !Strands(c, old(FilesOf(v))))
    ensures k.l == Relent(old(k.l), k.l.lent) && |k.ram.bytes| == |old(k.ram.bytes)|
    ensures SameImages(k.l, old(k.ram.bytes), k.procs[..], k.ram.bytes, k.procs[..])
    ensures old(SceneOf(k, v)).m.current < |old(SceneOf(k, v)).m.ps|
    ensures Acted(k.l, FileSystem(c), old(SceneOf(k, v)), SceneOf(k, v))
  {
    hide MemOk, TableOk, PageMap.Bits, Lent, Others, VfsTree.Tree, VfsTree.Rooted, VfsFiles.Held, Vfs.FdsOk,
         VfsFiles.Accounts, Accounted, Past, VfsFiles.View, Made, SameImages;
    ghost var m, bits, ns := k.ram.bytes, k.pm.Bits(), v.nodes[..];
    Perform(v, c);
    Lend(k, v, m, bits, ns, loaded, log);
  }

  /** What is lent does not matter to what a step comes to. */
  lemma StepSame(l: Layout, now: map<nat, seq<byte>>, s: Step, a: Moment)
    requires a.current < |a.ps|
    ensures LoadOf(Relent(l, now), s, a) == LoadOf(l, s, a)
    ensures forall b :: Did(Relent(l, now), s, a, b) <==> Did(l, s, a, b)
  {
    if s.Start? {
      StartSame(l, now, a, s.file);
    }
    hide StartedFrom, WaitedFrom, LeftFrom, YieldedFrom, KilledFrom;
  }

  lemma StartSame(l: Layout, now: map<nat, seq<byte>>, a: Moment, file: Option<seq<byte>>)
    requires a.current < |a.ps|
    ensures StartedFrom(Relent(l, now), a, file) == StartedFrom(l, a, file)
  {
    hide LoadPlan, StackPlan, FreeRow, ProcPlan.BroughtIn, Linked, Loads;
  }

  /**
   * Any program of steps and calls, from the start up to the first act that upsets those that wait or strands a
   * descriptor. The history says what each act came to. From it follow the descriptors and what every path leads to,
   * and what was loaded and stored, which accounts for every image; and no page has two owners.
   */
  method RunBoth(layout: Layout, memory: Ram, slots: nat, acts: seq<Act>)
    returns (k: Kernel, v: Vfs.Volume, n: nat, ghost hist: seq<Scene>)
    requires layout.Valid() && layout.base <= |memory.bytes| && layout.base <= USER_LO && slots > 0
    requires layout.lent == map[] && forall a :: a in acts && a.Process? ==> StepOk(a.step, |memory.bytes|)
    modifies memory
    ensures fresh(k) && fresh(v) && Joint(k, v) && n <= |acts| && |hist| == n + 1 && Played(layout, acts[..n], hist)
    ensures hist[0].m == FirstMoment(layout, slots) && hist[0].f.ns == Vfs.RootOnly()
    ensures forall d :: 0 <= d < |hist[0].f.fs| ==> !hist[0].f.fs[d].used
    ensures hist[n] == SceneOf(k, v) && forall i :: 0 <= i <= n ==> Sound(hist[i].m)
    ensures forall i :: 0 <= i < n - 1 ==> !ActUpsets(acts[i], hist[i])
    ensures n < |acts| ==> n > 0 && ActUpsets(acts[n - 1], hist[n - 1])
    ensures Accounted(k.l, k.ram.bytes, k.procs[..], LoadsOf(layout, acts[..n], hist), StoresOf(acts[..n], hist))
  {
    hide Lent, Others, PageMap.Bits, Accounted, Past, StepOk, VfsFiles.View, Acted, SameImages, MemOk, TableOk, PidsOk,
         Vfs.Volume.Valid, Vfs.Volume.Sound, Upsets, StoresOf, LoadsOf, ActStore, ActLoad, Sound, Played, ActUpsets;
    k, v := Boot(layout, memory, slots);
    n, hist := 0, [SceneOf(k, v)];
    ghost var loaded, log := map[], [];
    var ok := true;
    assert acts[..0] == [];
    NothingPlayed(layout, hist);
    PidsOf(k.procs[..], k.nextPid, k.stack + [k.current]);
    SoundNow(k, loaded, log);
    while n < |acts| && ok
      invariant n <= |acts| && Joint(k, v) && k.ram == memory && |memory.bytes| == |old(memory.bytes)|
      invariant k.l == Relent(layout, k.l.lent) && Played(layout, acts[..n], hist) && |hist| == n + 1
      invariant hist[0].m == FirstMoment(layout, slots) && hist[0].f.ns == Vfs.RootOnly()
      invariant forall d :: 0 <= d < |hist[0].f.fs| ==> !hist[0].f.fs[d].used
      invariant hist[n] == SceneOf(k, v) && forall i :: 0 <= i <= n ==> Sound(hist[i].m)
      invariant forall i :: 0 <= i < n - 1 ==> !ActUpsets(acts[i], hist[i])
      invariant (ok <==> k.Valid() && v.Valid()) && (ok <==> n == 0 || !ActUpsets(acts[n - 1], hist[n - 1]))
      invariant Accounted(k.l, k.ram.bytes, k.procs[..], loaded, log) && Past(loaded, log, k.nextPid)
      invariant loaded == LoadsOf(layout, acts[..n], hist) && log == StoresOf(acts[..n], hist)
    {
      assert acts[n] in acts;
      ghost var was := hist;
      ok, loaded, log := ActOn(k, v, layout, acts[n], loaded, log);
      PlayedOn(layout, acts, n, was, SceneOf(k, v));
      SoundNow(k, loaded, log);
      hist := was + [SceneOf(k, v)];
      n := n + 1;
    }
  }

  lemma NothingPlayed(l: Layout, hist: seq<Scene>)
    requires |hist| == 1
    ensures Played(l, [], hist) && StoresOf([], hist) == [] && LoadsOf(l, [], hist) == map[]
  {
  }

  /** One act. */
  method ActOn(k: Kernel, v: Vfs.Volume, layout: Layout, act: Act, ghost loaded: map<nat, seq<byte>>,
               ghost log: seq<Write>)
    returns (ok: bool, ghost loaded': map<nat, seq<byte>>, ghost log': seq<Write>)
    requires Joint(k, v) && v.Valid() && Kept(k, loaded, log) && k.l.base <= USER_LO && k.l == Relent(layout, k.l.lent)
    requires act.Process? ==> StepOk(act.step, |k.ram.bytes|)
    modifies k, k.ram, k.procs, k.pm.cells, v, v.nodes, v.fds
    ensures Joint(k, v) && k.current < k.procs.Length && PidsOk(k.procs[..], k.nextPid)
    ensures Accounted(k.l, k.ram.bytes, k.procs[..], loaded', log') && Past(loaded', log', k.nextPid)
    ensures old(SceneOf(k, v)).m.current < |old(SceneOf(k, v)).m.ps|
    ensures Acted(layout, act, old(SceneOf(k, v)), SceneOf(k, v))
    ensures (ok <==> k.Valid() && v.Valid()) && (ok <==> !ActUpsets(act, old(SceneOf(k, v))))
    ensures loaded' == loaded + ActLoad(layout, act, old(SceneOf(k, v)))
    ensures log' == log + ActStore(act, old(SceneOf(k, v)))
    ensures k.l == Relent(layout, k.l.lent) && |k.ram.bytes| == |old(k.ram.bytes)|
  {
    hide Lent, Others, PageMap.Bits, Accounted, Past, StepOk, VfsFiles.View, SameImages, MemOk, PidsOk, LineOk, OneRuns,
         Vfs.Good, Vfs.FdsOk, Vfs.KeptFor, Upsets, StoreOf, LoadOf, Did, Made;
    ok, loaded', log' := true, loaded, log;
    ghost var m, lent := k.Now(), k.l.lent;
    match act
    case Process(s) =>
      ok, loaded', log' := ProcStep(k, v, s, loaded, log);
      StepSame(layout, lent, s, m);
    case FileSystem(c) =>
      FileStep(k, v, c, loaded, log);
      ok := InOrder(v);
  }
}
