/** The in-memory file system: a node table, descriptors, and pages for the bytes of files. */
module Vfs {
  import opened Wrappers
  import opened Bytes
  import opened Pages
  import opened VfsPath
  import opened VfsTree
  import opened VfsFiles

  const PATH_MAX: nat := 128
  const MAX_NODES: nat := 256
  const FILE_MAX: nat := 0x1_0000
  const MAX_FD: nat := 32
  const FIRST_FD: nat := 3
  /** From here on descriptors belong to the FAT volume. */
  const FIRST_FAT_FD: nat := 100

  datatype Error = NoEnt | Exist | NoSpc | Inval | BadFd | IsDir | NameTooLong
  datatype Status = Fine | Failed(e: Error)
  datatype Result<+T> = Ok(v: T) | Bad(e: Error)
  datatype Flags = Flags(read: bool, write: bool, append: bool, trunc: bool, create: bool, dir: bool)
  datatype Fd = Fd(used: bool, node: nat, offset: nat, flags: Flags)

  /** A directory and a name in it. */
  datatype Place = Place(dir: nat, name: string)

  // ---- paths ----

  /** The names a path stands for. */
  function Resolve(path: string): seq<string> { Comps(Buffered(path, PATH_MAX)) }

  /** Where the last name of a path belongs, or why it belongs nowhere. */
  function ParentOf(ns: seq<Node>, path: string): Result<Place> {
    var norm := Buffered(path, PATH_MAX);
    var parts := Resolve(path);
    if |norm| <= 1 || parts == [] then Bad(Inval)
    else
      var tail := norm[|norm| - 1] == '/';
      var p := Find(ns, 0, if tail then parts else parts[..|parts| - 1]);
      if p.None? || p.value >= |ns| || !ns[p.value].isDir then Bad(NoEnt)
      else if tail then Bad(NameTooLong)
      else Ok(Place(p.value, parts[|parts| - 1]))
  }

  /** A path that fits stands for the fold of its components. */
  lemma ResolveFits(path: string)
    requires Fits(path, PATH_MAX)
    ensures Resolve(path) == Fold([], Comps(path))
  {
    FittingNormalized(path, PATH_MAX);
    NormComps(path);
  }

  /** What `ParentOf` says about the tree. */
  lemma PlaceFound(ns: seq<Node>, path: string)
    requires Tree(ns)
    ensures var r := ParentOf(ns, path); r.Ok? ==>
      var parts := Resolve(path);
      && parts != [] && parts == parts[..|parts| - 1] + [r.v.name]
      && Find(ns, 0, parts[..|parts| - 1]) == Some(r.v.dir) && r.v.dir < |ns| && ns[r.v.dir].used && ns[r.v.dir].isDir
      && Find(ns, 0, parts) == KidOf(ns, ns[r.v.dir].children, r.v.name)
  {
    hide KidOf, Tree, Buffered, Comps, Find, Resolve;
    RootUsed(ns);
    var r := ParentOf(ns, path);
    if r.Ok? {
      var parts := Resolve(path);
      var front := parts[..|parts| - 1];
      FindUsed(ns, 0, front);
      assert parts == front + [r.v.name];
      FindLast(ns, 0, front, r.v.name);
    }
  }

  /** What is left of a normalised text behind one more name. */
  lemma WalkStep(norm: string, i: nat, e: nat, part: string)
    requires i <= e <= |norm| && i < |norm| && part == norm[i..e] && '/' !in part && |part| < NAME_MAX
    requires e == |norm| || norm[e] == '/' || |part| + 1 == NAME_MAX
    requires Short(Comps(norm[i..]))
    ensures var i' := if e < |norm| && norm[e] == '/' then e + 1 else e;
      && i' > i && Comps(norm[i..]) == (if part == [] then [] else [part]) + Comps(norm[i'..])
      && Short(Comps(norm[i'..]))
  {
    hide Comps;
    var i' := if e < |norm| && norm[e] == '/' then e + 1 else e;
    if e < |norm| && norm[e] == '/' {
      assert norm[e..][1..] == norm[e + 1..];
      BehindSlash(norm[e..]);
    }
    assert Comps(norm[e..]) == Comps(norm[i'..]);
    if part == [] {
      assert i == e;
      assert [] + Comps(norm[i'..]) == Comps(norm[i'..]);
    } else {
      var t := norm[i..];
      assert t[..|part|] == part && t[|part|..] == norm[e..];
      assert |part| < |t| ==> t[|part|] == norm[e];
      WholeComp(t, |part|);
      assert forall k :: 0 <= k < |Comps(norm[i'..])| ==> Comps(norm[i'..])[k] == Comps(t)[k + 1];
    }
  }

  /** The last slash of a normalised text splits off its last name, or nothing if the text ends there. */
  lemma LastSlash(norm: string, parts: seq<string>, tail: bool, n: nat, slash: nat)
    requires Shape(norm, parts, tail, n) && n <= PATH_MAX && parts != []
    requires slash < |norm| && norm[slash] == '/' && forall k :: slash < k < |norm| ==> norm[k] != '/'
    ensures var front := if tail then parts else parts[..|parts| - 1];
      && norm[..slash] == Joined(front) && norm[slash + 1..] == (if tail then [] else parts[|parts| - 1])
      && tail == (norm[|norm| - 1] == '/')
  {
    hide Joined, Short;
    if tail {
      assert norm[|norm| - 1] == '/';
    } else {
      JoinedLast(parts);
      var a, x := Joined(parts[..|parts| - 1]), parts[|parts| - 1];
      assert norm == a + ("/" + x);
      assert norm[|a|] == '/';
      assert forall k :: |a| < k < |norm| ==> norm[k] == x[k - |a| - 1] && x[k - |a| - 1] in x;
    }
  }

  /** The text of names in front of the last slash stands for these names. */
  lemma ResolveFront(parts: seq<string>)
    requires Names(parts) && Short(parts) && |parts| <= MAX_PARTS && |Joined(parts)| < PATH_MAX
    ensures Resolve(if parts == [] then "/" else Joined(parts)) == parts
  {
    hide Comps, Buffered, Joined, Fold, Short;
    var s := if parts == [] then "/" else Joined(parts);
    ShapeComps(parts, parts == []);
    JoinedNothing();
    assert [] + "/" == "/";
    assert Joined(parts) + "" == Joined(parts);
    assert Comps(s) == parts;
    FoldNames([], parts);
    assert [] + parts == parts;
    assert Norm(s) == s;
    ResolveFits(s);
  }

  // ---- the invariant ----

  /** A tree with a path to every node, an account of all pages, and files within their pages. */
  ghost predicate Good(ns: seq<Node>, bits: seq<bool>, foreign: seq<bool>) {
    Tree(ns) && Rooted(ns) && Accounts(ns, bits, foreign) && Held(ns)
  }

  /** Descriptors stand within the files they are open on. */
  ghost predicate FdsOk(ns: seq<Node>, fs: seq<Fd>) {
    forall f :: 0 <= f < |fs| && fs[f].used ==>
      fs[f].node < |ns| && ns[fs[f].node].used && fs[f].offset <= ns[fs[f].node].size
  }

  /** No descriptor on a node stands behind a position. */
  ghost predicate Within(fs: seq<Fd>, i: nat, size: nat) {
    forall f :: 0 <= f < |fs| && fs[f].used && fs[f].node == i ==> fs[f].offset <= size
  }

  /** A descriptor is open on what a path leads to, at or behind a position. */
  ghost predicate Needed(ns: seq<Node>, fs: seq<Fd>, path: string, least: nat) {
    var i := Find(ns, 0, Resolve(path));
    exists f :: 0 <= f < |fs| && fs[f].used && Some(fs[f].node) == i && fs[f].offset >= least
  }

  /** Changing a file's size leaves descriptors in order exactly if none stands behind its new end. */
  lemma FdsSized(ns: seq<Node>, ns': seq<Node>, i: nat, fs: seq<Fd>)
    requires FdsOk(ns, fs) && OnlyData(ns, ns', i) && i < |ns| && ns[i].used
    ensures FdsOk(ns', fs) <==> Within(fs, i, ns'[i].size)
  {}

  lemma FdTaken(ns: seq<Node>, fs: seq<Fd>, fd: nat, f: Fd)
    requires fd < |fs| && !fs[fd].used && f.node < |ns| && ns[f.node].used && f.offset <= ns[f.node].size
    ensures FdsOk(ns, fs[fd := f]) <==> FdsOk(ns, fs)
  {
    var fs' := fs[fd := f];
    assert forall j :: 0 <= j < |fs| && fs[j].used ==> fs'[j] == fs[j];
  }

  lemma NeededWithin(ns: seq<Node>, fs: seq<Fd>, path: string, i: nat, size: nat)
    requires Find(ns, 0, Resolve(path)) == Some(i)
    ensures Needed(ns, fs, path, size + 1) <==> !Within(fs, i, size)
  {
    hide Find, Resolve;
    if !Within(fs, i, size) {
      var f :| 0 <= f < |fs| && fs[f].used && fs[f].node == i && fs[f].offset > size;
      assert Some(fs[f].node) == Some(i);
    }
  }

  predicate HasRoom(ns: seq<Node>, p: nat) {
    p < |ns| && |ns[p].children| < MAX_CHILDREN && exists c :: 0 <= c < |ns| && !ns[c].used
  }

  lemma AddedGood(ns: seq<Node>, bits: seq<bool>, foreign: seq<bool>, fs: seq<Fd>, p: nat, c: nat, node: Node,
                  front: seq<string>)
    requires Good(ns, bits, foreign) && FdsOk(ns, fs) && CanAdd(ns, p, c, node) && node.size == 0
    requires Find(ns, 0, front) == Some(p)
    ensures Good(WithChild(ns, p, c, node), bits, foreign) && FdsOk(WithChild(ns, p, c, node), fs)
    ensures Find(WithChild(ns, p, c, node), 0, front + [node.name]) == Some(c)
  {
    hide KidOf, Tree, Rooted, Accounts;
    var ns' := WithChild(ns, p, c, node);
    RootUsed(ns);
    GrownTree(ns, p, c, node);
    RootedGrown(ns, p, c, node, front);
    assert (front + [node.name])[..|front|] == front;
    GrownFind(ns, p, c, node, 0, front + [node.name]);
    SameOwners(ns, ns', bits, foreign);
  }

  function RootOnly(): (ns: seq<Node>)
    ensures |ns| == MAX_NODES
    ensures forall i :: 0 <= i < MAX_NODES ==>
      ns[i] == if i == 0 then Blank().(used := true, name := "/", isDir := true) else Blank()
  {
    seq(MAX_NODES, i => if i == 0 then Blank().(used := true, name := "/", isDir := true) else Blank())
  }

  lemma RootGood(bits: seq<bool>)
    ensures Good(RootOnly(), bits, bits)
  {
    hide RootOnly;
    var ns := RootOnly();
    assert Find(ns, 0, []) == Some(0);
    assert forall i: nat, k: nat :: !Owns(ns, i, k);
  }

  // ---- data ----

  lemma MorePages(n: nat, cap: nat)
    requires Size(cap) < n
    ensures PagesFor(n) > cap
  {}

  /** Memory with bytes copied to an address. */
  function Copied(mem: seq<byte>, at: nat, buf: seq<byte>): (mem': seq<byte>)
    ensures |mem'| == |mem|
  {
    if buf == [] || at + |buf| > |mem| then mem else Patch(mem, at, buf)
  }

  lemma CopiedIn(mem: seq<byte>, q: nat, n: nat, off: nat, buf: seq<byte>)
    requires off + |buf| <= Size(n)
    ensures ChangedIn(mem, Copied(mem, Size(q) + off, buf), q, n)
  {
    assert Size(q + n) == Size(q) + Size(n);
  }

  /** Copying into a file's pages is overwriting its bytes. */
  lemma CopiedData(n: Node, mem: seq<byte>, off: nat, buf: seq<byte>)
    requires off <= n.size <= Size(n.cap) && off + |buf| <= Size(n.cap)
    requires (n.cap > 0 ==> Size(n.at) + Size(n.cap) <= |mem|)
    ensures var size := if off + |buf| > n.size then off + |buf| else n.size;
      Data(n.(size := size), Copied(mem, Size(n.at) + off, buf)) == Overwrite(Data(n, mem), off, buf)
  {
    var size := if off + |buf| > n.size then off + |buf| else n.size;
    var l, r := Data(n.(size := size), Copied(mem, Size(n.at) + off, buf)), Overwrite(Data(n, mem), off, buf);
    assert |l| == |r|;
    forall k | 0 <= k < |l| ensures l[k] == r[k] {
      assert n.cap > 0 && |l| <= size <= Size(n.cap);
      assert l[k] == Copied(mem, Size(n.at) + off, buf)[Size(n.at) + k];
    }
  }

  /** Writing in one file's pages leaves the bytes of all others. */
  lemma OthersKept(ns: seq<Node>, bits: seq<bool>, foreign: seq<bool>, i: nat, mem: seq<byte>, mem': seq<byte>)
    requires Good(ns, bits, foreign) && i < |ns| && ns[i].used && ChangedIn(mem, mem', ns[i].at, ns[i].cap)
    ensures forall j :: 0 <= j < |ns| && j != i && ns[j].used ==> Data(ns[j], mem') == Data(ns[j], mem)
  {
    hide Tree, Rooted, Data, ChangedIn;
    forall j | 0 <= j < |ns| && j != i && ns[j].used ensures Data(ns[j], mem') == Data(ns[j], mem) {
      if ns[i].cap > 0 && ns[j].cap > 0 {
        RunsApart(ns, i, j);
      }
      DataKept(ns[j], mem, mem', ns[i].at, ns[i].cap);
    }
  }

  /** Writing in free pages leaves the bytes of every file. */
  lemma AllKept(ns: seq<Node>, bits: seq<bool>, foreign: seq<bool>, q: nat, m: nat, mem: seq<byte>, mem': seq<byte>)
    requires Good(ns, bits, foreign) && FreeRun(bits, q, m) && ChangedIn(mem, mem', q, m)
    ensures forall j :: 0 <= j < |ns| && ns[j].used ==> Data(ns[j], mem') == Data(ns[j], mem)
  {
    hide Tree, Rooted, Data, ChangedIn, FreeRun;
    forall j | 0 <= j < |ns| && ns[j].used ensures Data(ns[j], mem') == Data(ns[j], mem) {
      if m > 0 && ns[j].cap > 0 {
        FreeApart(ns, bits, foreign, j, q, m);
      }
      DataKept(ns[j], mem, mem', q, m);
    }
  }

  /** Other pages for a file, the old ones given back. */
  lemma MovedGood(ns: seq<Node>, ns': seq<Node>, i: nat, bits: seq<bool>, foreign: seq<bool>)
    requires Good(ns, bits, foreign) && OnlyData(ns, ns', i) && ns[i].used && !ns[i].isDir
    requires ns'[i].size <= Size(ns'[i].cap)
    requires FreeRun(bits, ns'[i].at, ns'[i].cap)
    ensures Good(ns', WithRun(WithRun(bits, ns'[i].at, ns'[i].cap, true), ns[i].at, ns[i].cap, false), foreign)
  {
    hide Tree, Rooted, Accounts, FreeRun;
    Moved(ns, ns', i, bits, foreign);
    DataTree(ns, ns', i);
    RootedData(ns, ns', i);
  }

  /** Another size for a file. */
  lemma SizedGood(ns: seq<Node>, ns': seq<Node>, i: nat, bits: seq<bool>, foreign: seq<bool>)
    requires Good(ns, bits, foreign) && i < |ns| == |ns'| && ns[i].used && !ns[i].isDir
    requires ns' == ns[i := ns[i].(size := ns'[i].size)] && ns'[i].size <= Size(ns[i].cap)
    ensures Good(ns', bits, foreign) && OnlyData(ns, ns', i)
  {
    hide Tree, Rooted, Accounts;
    SameOwners(ns, ns', bits, foreign);
    DataTree(ns, ns', i);
    RootedData(ns, ns', i);
  }

  /** After the copy to a new run the file's bytes are the old ones. */
  lemma CopiedOver(node: Node, mem: seq<byte>, q: nat, m: nat)
    requires node.size <= Size(node.cap) && node.cap <= m && Size(q) + Size(m) <= |mem|
    requires node.cap > 0 ==> Size(node.at) + Size(node.cap) <= |mem|
    ensures |Data(node, mem)| == node.size
    ensures ChangedIn(mem, Copied(mem, Size(q), Data(node, mem)), q, m)
    ensures Data(node.(at := q, cap := m), Copied(mem, Size(q), Data(node, mem))) == Data(node, mem)
  {
    assert Size(node.cap) <= Size(m);
    CopiedIn(mem, q, m, 0, Data(node, mem));
  }

  /** Copying a whole file into its pages. */
  lemma CopiedAll(n: Node, mem: seq<byte>, data: seq<byte>)
    requires |data| <= Size(n.cap) && (n.cap > 0 ==> Size(n.at) + Size(n.cap) <= |mem|)
    ensures Data(n.(size := |data|), Copied(mem, Size(n.at), data)) == data
    ensures ChangedIn(mem, Copied(mem, Size(n.at), data), n.at, n.cap)
    ensures data == [] ==> Copied(mem, Size(n.at), data) == mem
  {
    CopiedIn(mem, n.at, n.cap, 0, data);
  }

  lemma FoundUsed(ns: seq<Node>, parts: seq<string>)
    requires Tree(ns) && Find(ns, 0, parts).Some?
    ensures Find(ns, 0, parts).value < |ns| && ns[Find(ns, 0, parts).value].used
  {
    FindUsed(ns, 0, parts);
  }

  /** Whether writing so many bytes to a node works, and why not. */
  ghost function FillStatus(n: Node, bits: seq<bool>, len: nat): Status {
    if n.isDir then Failed(IsDir)
    else if len > FILE_MAX || (Size(n.cap) < len && NoRoom(bits, PagesFor(len))) then Failed(NoSpc)
    else Fine
  }

  ghost function WriteStatus(ns: seq<Node>, bits: seq<bool>, path: string, len: nat): Status {
    var i := Find(ns, 0, Resolve(path));
    var place := ParentOf(ns, path);
    if i.Some? && i.value < |ns| then FillStatus(ns[i.value], bits, len)
    else if place.Bad? then Failed(place.e)
    else if !HasRoom(ns, place.v.dir) then Failed(NoSpc)
    else FillStatus(Blank(), bits, len)
  }

  /** A path without a node that can get one. */
  ghost predicate Creates(ns: seq<Node>, path: string) {
    Find(ns, 0, Resolve(path)).None? && ParentOf(ns, path).Ok? && HasRoom(ns, ParentOf(ns, path).v.dir)
  }

  /** Whether a write of so many bytes works, and why not. */
  ghost function WriteResult(ns: seq<Node>, fs: seq<Fd>, bits: seq<bool>, fd: int, len: nat): Result<nat> {
    if fd < 0 || fd >= |fs| || !fs[fd].used then Bad(BadFd)
    else if !fs[fd].flags.write then Bad(Inval)
    else if fs[fd].node < |ns| && ns[fs[fd].node].isDir then Bad(IsDir)
    else
      var need := fs[fd].offset + len;
      if need > FILE_MAX || (fs[fd].node < |ns| && need > Size(ns[fs[fd].node].cap) && NoRoom(bits, PagesFor(need)))
        then Bad(NoSpc)
      else Ok(len)
  }

  lemma DataLong(n: Node, mem: seq<byte>)
    requires n.size <= Size(n.cap) && (n.cap > 0 ==> Size(n.at) + Size(n.cap) <= |mem|)
    ensures |Data(n, mem)| == n.size
    ensures n.size > 0 ==> Size(n.at) + n.size <= |mem| && Data(n, mem) == mem[Size(n.at)..Size(n.at) + n.size]
  {}

  lemma SliceOf(mem: seq<byte>, at: nat, size: nat, off: nat, k: nat)
    requires off + k <= size && at + size <= |mem|
    ensures mem[at..at + size][off..off + k] == mem[at + off..at + off + k]
  {
    var whole := mem[at..at + size];
    assert forall j :: off <= j < off + k ==> whole[j] == mem[at + j];
  }

  lemma CopiedNothing(mem: seq<byte>, at: nat)
    ensures Copied(mem, at, []) == mem
  {}

  /** What a path leads to once it has been opened. */
  function Opened(was: Entry, flags: Flags, creates: bool): Entry {
    match was
    case Gone => if flags.create && creates then File([]) else Gone
    case Dir => Dir
    case File(bytes) => if flags.trunc && flags.write then File([]) else was
  }

  /** The first descriptor not in use; their number if there is none. */
  function FreeFd(fs: seq<Fd>, f: nat): (r: nat)
    requires f <= |fs|
    ensures f <= r <= |fs| && (r < |fs| ==> !fs[r].used) && forall k :: f <= k < r ==> fs[k].used
    decreases |fs| - f
  {
    if f == |fs| || !fs[f].used then f else FreeFd(fs, f + 1)
  }

  lemma FreeFdNone(fs: seq<Fd>)
    requires |fs| == MAX_FD && forall f :: FIRST_FD <= f < MAX_FD ==> fs[f].used
    ensures FreeFd(fs, FIRST_FD) == MAX_FD
  {
    hide FreeFd;
    assert FreeFd(fs, FIRST_FD) >= FIRST_FD;
  }

  lemma FreeFdIs(fs: seq<Fd>, r: nat)
    requires |fs| == MAX_FD && FIRST_FD <= r < MAX_FD && !fs[r].used && forall f :: FIRST_FD <= f < r ==> fs[f].used
    ensures FreeFd(fs, FIRST_FD) == r
  {
    hide FreeFd;
    assert FreeFd(fs, FIRST_FD) >= FIRST_FD;
  }

  /** The descriptor that opening gives, or why it gives none, by what is at the path then. */
  function OpenResult(e: Entry, flags: Flags, fs: seq<Fd>): Result<nat>
    requires |fs| >= FIRST_FD
  {
    if e.Gone? then Bad(if flags.create then NoSpc else NoEnt)
    else if e.Dir? && !flags.dir then Bad(IsDir)
    else if FreeFd(fs, FIRST_FD) == |fs| then Bad(NoSpc)
    else Ok(FreeFd(fs, FIRST_FD))
  }

  /** One descriptor is taken, at the start or the end of what the path leads to. */
  ghost predicate OpenedAs(ns: seq<Node>, fs: seq<Fd>, fs': seq<Fd>, path: string, fd: nat, flags: Flags) {
    var i := Find(ns, 0, Resolve(path));
    && i.Some? && i.value < |ns| && fd < |fs| && !fs[fd].used
    && fs' == fs[fd := Fd(true, i.value, if flags.append then ns[i.value].size else 0, flags)]
  }

  lemma NothingThere(ns: seq<Node>, mem: seq<byte>, parts: seq<string>)
    requires Find(ns, 0, parts).None?
    ensures View(ns, mem, parts) == Gone
  {}

  lemma GoodTree(ns: seq<Node>, bits: seq<bool>, foreign: seq<bool>)
    requires Good(ns, bits, foreign)
    ensures Tree(ns)
  {}

  /** Descriptors on an empty file stand at its start. */
  lemma EmptyFile(ns: seq<Node>, bits: seq<bool>, foreign: seq<bool>, mem: seq<byte>, fs: seq<Fd>, i: nat,
                  parts: seq<string>)
    requires Good(ns, bits, foreign) && FdsOk(ns, fs) && |mem| == Size(|bits|)
    requires Find(ns, 0, parts) == Some(i) && View(ns, mem, parts) == File([])
    ensures forall n :: Within(fs, i, n)
  {
    hide Tree, Rooted, Accounts, Find, Data;
    FoundUsed(ns, parts);
    PagesInMemory(ns, bits, foreign, i);
    DataLong(ns[i], mem);
  }

  /** An empty file needs no pages. */
  lemma NothingNeeded(ns: seq<Node>, bits: seq<bool>, path: string)
    requires Find(ns, 0, Resolve(path)).None?
    ensures WriteStatus(ns, bits, path, 0).Fine? <==> Creates(ns, path)
  {
    hide Find, Resolve, HasRoom, ParentOf, NoRoom;
    assert FillStatus(Blank(), bits, 0) == Fine;
  }

  function UnlinkStatus(ns: seq<Node>, path: string): Status {
    var i := Find(ns, 0, Resolve(path));
    if i.None? || i.value == 0 || i.value >= |ns| then Failed(NoEnt)
    else
      var n := ns[i.value];
      if n.parent == Some(0) && n.name in ["sys", "disk"] then Failed(Inval)
      else if n.isDir && n.children != [] then Failed(Inval)
      else Fine
  }

  /** A node below the root is a child of the node above it, which is another one. */
  lemma ParentListed(ns: seq<Node>, c: nat)
    requires Tree(ns) && 0 < c < |ns| && ns[c].used && HasPath(ns, c)
    ensures HasParent(ns, c) && ns[c].parent.value != c && (!ns[c].isDir ==> ns[c].children == [])
  {
    assert NodeOk(ns, c);
    if ns[c].parent.value == c {
      var path :| Find(ns, 0, path) == Some(c);
      Endless(ns, c, path);
    }
  }

  /** Nothing that is its own parent is reached from the root. */
  lemma {:induction false} Endless(ns: seq<Node>, c: nat, path: seq<string>)
    requires Tree(ns) && 0 < c < |ns| && ns[c].parent == Some(c)
    ensures Find(ns, 0, path) != Some(c)
    decreases |path|
  {
    hide Tree;
    if path == [] {
    } else if Find(ns, 0, path) == Some(c) {
      LastStep(ns, path);
      Endless(ns, c, path[..|path| - 1]);
    }
  }

  lemma PathTo(ns: seq<Node>, c: nat, parts: seq<string>)
    requires Find(ns, 0, parts) == Some(c)
    ensures HasPath(ns, c)
  {}

  lemma RemovedGood(ns: seq<Node>, bits: seq<bool>, foreign: seq<bool>, fs: seq<Fd>, p: nat, k: nat, c: nat)
    requires Good(ns, bits, foreign) && FdsOk(ns, fs) && CanRemove(ns, p, k, c)
    ensures Good(Without(ns, p, k, c), WithRun(bits, ns[c].at, ns[c].cap, false), foreign)
    ensures FdsOk(Without(ns, p, k, c), fs) <==> forall f :: 0 <= f < |fs| && fs[f].used ==> fs[f].node != c
  {
    hide Tree, Rooted, Accounts, KidOf, Removed, WithRun;
    PrunedTree(ns, p, k, c);
    RootedPruned(ns, p, k, c);
    Released(ns, Without(ns, p, k, c), c, bits, foreign);
  }

  // ---- memory shared with others ----

  /** An address outside the pages, or in one that others have. */
  predicate Elsewhere(a: nat, heap: nat, foreign: seq<bool>) {
    a < heap || (a - heap) / PAGE >= |foreign| || foreign[(a - heap) / PAGE]
  }

  /** What others have in memory is as they left it. */
  ghost predicate KeptFor(m: seq<byte>, held: seq<byte>, heap: nat, foreign: seq<bool>) {
    |m| == |held| && forall a :: 0 <= a < |m| && Elsewhere(a, heap, foreign) ==> m[a] == held[a]
  }

  ghost predicate NoneForeign(foreign: seq<bool>, q: nat, n: nat) {
    forall k :: q <= k < q + n && k < |foreign| ==> !foreign[k]
  }

  lemma RunWithin(q: nat, n: nat, count: nat)
    requires q + n <= count
    ensures Size(q) + Size(n) <= Size(count)
  {}

  lemma PatchedHeap(m: seq<byte>, heap: nat, count: nat, at: nat, buf: seq<byte>)
    requires heap + Size(count) <= |m| && at + |buf| <= Size(count)
    ensures Patch(m, heap + at, buf)[heap..heap + Size(count)] == Copied(m[heap..heap + Size(count)], at, buf)
  {}

  lemma PatchedKept(m: seq<byte>, held: seq<byte>, heap: nat, foreign: seq<bool>, q: nat, n: nat, off: nat,
                    buf: seq<byte>)
    requires KeptFor(m, held, heap, foreign) && NoneForeign(foreign, q, n) && q + n <= |foreign|
    requires off + |buf| <= Size(n)
    requires heap + Size(q) + off + |buf| <= |m|
    ensures KeptFor(Patch(m, heap + Size(q) + off, buf), held, heap, foreign)
  {
    hide Patch;
    var at, m' := heap + Size(q) + off, Patch(m, heap + Size(q) + off, buf);
    forall a | 0 <= a < |m| && Elsewhere(a, heap, foreign) ensures m'[a] == m[a] {
      if at <= a < at + |buf| {
        PageIn(a - heap, q, n);
      }
    }
  }

  lemma PageIn(a: nat, q: nat, n: nat)
    requires Size(q) <= a < Size(q) + Size(n)
    ensures q <= a / PAGE < q + n
  {}

  lemma FreeNotForeign(ns: seq<Node>, bits: seq<bool>, foreign: seq<bool>, q: nat, m: nat)
    requires Good(ns, bits, foreign) && FreeRun(bits, q, m)
    ensures NoneForeign(foreign, q, m) && |foreign| == |bits| && q + m <= |bits|
  {
    hide Tree, Rooted;
  }

  lemma OwnNotForeign(ns: seq<Node>, bits: seq<bool>, foreign: seq<bool>, i: nat)
    requires Good(ns, bits, foreign) && i < |ns| && ns[i].used
    ensures NoneForeign(foreign, ns[i].at, ns[i].cap) && |foreign| == |bits|
    ensures ns[i].cap > 0 ==> ns[i].at + ns[i].cap <= |bits|
  {
    hide Tree, Rooted;
    forall k | ns[i].at <= k < ns[i].at + ns[i].cap && k < |foreign| ensures !foreign[k] {
      assert Owns(ns, i, k);
    }
    hide Apart;
    assert Apart(ns);
    InMemory(ns, bits, foreign, i);
  }

  lemma SameData(n: Node, n': Node, mem: seq<byte>)
    requires n'.size == n.size && n'.at == n.at
    ensures Data(n', mem) == Data(n, mem)
  {}

  /** The same bytes in every file, the same view. */
  lemma ViewSame(ns: seq<Node>, mem: seq<byte>, mem': seq<byte>, q: seq<string>)
    requires Tree(ns) && forall j :: 0 <= j < |ns| && ns[j].used ==> Data(ns[j], mem') == Data(ns[j], mem)
    ensures View(ns, mem', q) == View(ns, mem, q)
  {
    hide KidOf, Data, Tree;
    RootUsed(ns);
    FindUsed(ns, 0, q);
  }

  lemma NewApart(ns: seq<Node>, bits: seq<bool>, foreign: seq<bool>, i: nat, q: nat, m: nat)
    requires Good(ns, bits, foreign) && FreeRun(bits, q, m) && i < |ns| && ns[i].used && ns[i].cap > 0 && m > 0
    ensures q + m <= ns[i].at || ns[i].at + ns[i].cap <= q
  {
    hide Tree, Rooted, Accounts, FreeRun;
    FreeApart(ns, bits, foreign, i, q, m);
  }

  lemma FdsStay(ns: seq<Node>, ns': seq<Node>, i: nat, fs: seq<Fd>)
    requires FdsOk(ns, fs) && OnlyData(ns, ns', i) && ns'[i].size >= ns[i].size
    ensures FdsOk(ns', fs)
  {}

  lemma FdAt(ns: seq<Node>, fs: seq<Fd>, f: nat)
    requires FdsOk(ns, fs) && f < |fs| && fs[f].used
    ensures fs[f].node < |ns| && ns[fs[f].node].used && fs[f].offset <= ns[fs[f].node].size
  {}

  lemma FdMoved(ns: seq<Node>, fs: seq<Fd>, f: nat, off: nat)
    requires FdsOk(ns, fs) && f < |fs| && fs[f].used && fs[f].node < |ns| && off <= ns[fs[f].node].size
    ensures FdsOk(ns, fs[f := fs[f].(offset := off)])
  {}

  lemma SomeRoom(bits: seq<bool>, q: nat, m: nat)
    requires FreeRun(bits, q, m)
    ensures !NoRoom(bits, m)
  {}

  lemma NothingCopied(mem: seq<byte>, q: nat, m: nat)
    ensures ChangedIn(mem, mem, q, m)
  {}

  lemma DataIs(n: Node, mem: seq<byte>)
    requires n.size > 0 && |Data(n, mem)| == n.size
    ensures Size(n.at) + n.size <= |mem| && Data(n, mem) == mem[Size(n.at)..Size(n.at) + n.size]
  {}

  lemma RunInMemory(bits: seq<bool>, q: nat, m: nat)
    requires FreeRun(bits, q, m)
    ensures Size(q) + Size(m) <= Size(|bits|)
  {}

  lemma NoRun(bits: seq<bool>, q: nat)
    ensures WithRun(bits, q, 0, false) == bits
  {}

  lemma PagesInMemory(ns: seq<Node>, bits: seq<bool>, foreign: seq<bool>, i: nat)
    requires Good(ns, bits, foreign) && i < |ns| && ns[i].used
    ensures ns[i].size <= Size(ns[i].cap) && (ns[i].cap > 0 ==> Size(ns[i].at) + Size(ns[i].cap) <= Size(|bits|))
  {
    hide Tree, Rooted, Accounts;
    InMemory(ns, bits, foreign, i);
    if ns[i].cap > 0 {
      assert Size(ns[i].at) + Size(ns[i].cap) == Size(ns[i].at + ns[i].cap) <= Size(|bits|);
    }
  }

  lemma NoData(n: Node, mem: seq<byte>)
    requires n.size == 0
    ensures Data(n, mem) == []
  {}

  function MkdirStatus(ns: seq<Node>, path: string): Status {
    if Find(ns, 0, Resolve(path)).Some? then Failed(Exist)
    else
      var place := ParentOf(ns, path);
      if place.Bad? then Failed(place.e)
      else if !HasRoom(ns, place.v.dir) then Failed(NoSpc)
      else Fine
  }

  class Volume {
    const nodes: array<Node>
    const fds: array<Fd>
    const pages: PageMap
    const ram: Ram
    /** Where the pages begin in memory. */
    const heap: nat
    /** The pages that processes, windows and the kernel have. */
    ghost var foreign: seq<bool>
    /** Memory as it was when one of those last ran. */
    ghost var held: seq<byte>

    /** The tree and its pages are in order. */
    ghost predicate Sound()
      reads this, nodes, fds, pages, pages.cells, ram
    {
      && pages.Valid() && heap + Size(pages.count) <= |ram.bytes|
      && KeptFor(ram.bytes, held, heap, foreign)
      && nodes.Length == MAX_NODES && fds.Length == MAX_FD && Good(nodes[..], pages.Bits(), foreign)
    }

    ghost predicate Valid()
      reads this, nodes, fds, pages, pages.cells, ram
    {
      Sound() && FdsOk(nodes[..], fds[..])
    }

    /** The pages' bytes. */
    ghost function Heap(): (m: seq<byte>)
      reads ram
    {
      if heap + Size(pages.count) <= |ram.bytes| then ram.bytes[heap..heap + Size(pages.count)] else []
    }

    /** What a path leads to. */
    ghost function Sees(path: seq<string>): Entry
      reads nodes, ram
    {
      View(nodes[..], Heap(), path)
    }

    /** The root alone, on the pages nobody has. */
    constructor (pageMap: PageMap, memory: Ram, start: nat)
      requires pageMap.Valid() && start + Size(pageMap.count) <= |memory.bytes|
      ensures Valid() && pages == pageMap && ram == memory && heap == start && foreign == pageMap.Bits()
      ensures nodes[..] == RootOnly() && fresh(nodes) && fresh(fds) && forall d :: 0 <= d < fds.Length ==> !fds[d].used
    {
      nodes := new Node[MAX_NODES](i => if i == 0 then Blank().(used := true, name := "/", isDir := true) else Blank());
      fds := new Fd[MAX_FD](_ => Fd(false, 0, 0, Flags(false, false, false, false, false, false)));
      pages, ram, heap, foreign, held := pageMap, memory, start, pageMap.Bits(), memory.bytes;
      new;
      assert nodes[..] == RootOnly();
      RootGood(pages.Bits());
    }

    // ---- looking up ----

    method FindChild(dir: nat, name: string) returns (r: Option<nat>)
      requires Valid() && dir < nodes.Length && nodes[dir].used
      ensures r == KidOf(nodes[..], nodes[dir].children, name)
    {
      hide Rooted, Accounts, Held, FdsOk;
      var kids := nodes[dir].children;
      assert kids[0..] == kids && NodeOk(nodes[..], dir);
      var i := 0;
      while i < |kids|
        invariant i <= |kids| && KidOf(nodes[..], kids, name) == KidOf(nodes[..], kids[i..], name)
      {
        assert kids[i] in kids && KidOk(nodes[..], dir, kids[i]);
        assert kids[i..][0] == kids[i] && kids[i..][1..] == kids[i + 1..];
        if nodes[kids[i]].name == name {
          return Some(kids[i]);
        }
        i := i + 1;
      }
      return None;
    }

    method Lookup(path: string) returns (r: Option<nat>)
      requires Valid()
      ensures r == Find(nodes[..], 0, Resolve(path))
    {
      hide Tree, Rooted, Accounts, Held, FdsOk, KidOf, Comps, Buffered, Joined, Find;
      var norm := Normalize(path, PATH_MAX);
      ghost var parts, tail := BufferedShape(path, PATH_MAX);
      RootUsed(nodes[..]);
      ShapeStart(norm, parts, tail, PATH_MAX);
      FindHere(nodes[..], 0);
      if norm == "/" {
        return Some(0);
      }
      BehindSlash(norm);
      var cur: nat, i: nat := 0, 1;
      while i < |norm|
        invariant 0 < i <= |norm| && cur < nodes.Length && nodes[cur].used && Short(Comps(norm[i..]))
        invariant Find(nodes[..], 0, parts) == Find(nodes[..], cur, Comps(norm[i..]))
        decreases |norm| - i
      {
        var part, i0 := [], i;
        while i < |norm| && norm[i] != '/' && |part| + 1 < NAME_MAX
          invariant i0 <= i <= |norm| && part == norm[i0..i] && '/' !in part && |part| < NAME_MAX
          decreases |norm| - i
        {
          part := part + [norm[i]];
          i := i + 1;
        }
        WalkStep(norm, i0, i, part);
        if i < |norm| && norm[i] == '/' {
          i := i + 1;
        }
        if part == [] {
          assert [] + Comps(norm[i..]) == Comps(norm[i..]);
          continue;
        }
        WalkFind(nodes[..], cur, part, Comps(norm[i..]));
        if !nodes[cur].isDir {
          return None;
        }
        var kid := FindChild(cur, part);
        if kid.None? {
          return None;
        }
        KidUsed(nodes[..], cur, part);
        cur := kid.value;
      }
      NoComps(norm[i..]);
      FindHere(nodes[..], cur);
      return Some(cur);
    }

    method EnsureParent(path: string) returns (r: Result<Place>)
      requires Valid()
      ensures r == ParentOf(nodes[..], path)
    {
      hide Tree, Rooted, Accounts, Held, FdsOk, KidOf, Comps, Buffered, Joined, Find;
      var norm := Normalize(path, PATH_MAX);
      ghost var parts, tail := BufferedShape(path, PATH_MAX);
      RootUsed(nodes[..]);
      ShapeStart(norm, parts, tail, PATH_MAX);
      if |norm| <= 1 {
        return Bad(Inval);
      }
      var slash := 0;
      for i := 1 to |norm|
        invariant slash < i && norm[slash] == '/' && forall k :: slash < k < i ==> norm[k] != '/'
      {
        if norm[i] == '/' {
          slash := i;
        }
      }
      var parent := if slash == 0 then "/" else norm[..slash];
      var name := norm[slash + 1..];
      Split(norm, parts, tail, slash);
      var p := Lookup(parent);
      if p.None? {
        return Bad(NoEnt);
      }
      FindUsed(nodes[..], 0, Resolve(parent));
      if !nodes[p.value].isDir {
        return Bad(NoEnt);
      }
      if name == [] || |name| >= NAME_MAX {
        return Bad(NameTooLong);
      }
      return Ok(Place(p.value, name));
    }

    // ---- making nodes ----

    /** The first unused row, cleared and in use. */
    method AllocNode() returns (r: Option<nat>)
      modifies nodes
      ensures r.None? ==> nodes[..] == old(nodes[..]) && forall i :: 0 <= i < nodes.Length ==> nodes[i].used
      ensures r.Some? ==>
        && r.value < nodes.Length && !old(nodes[..])[r.value].used
        && (forall i :: 0 <= i < r.value ==> old(nodes[..])[i].used)
        && nodes[..] == old(nodes[..])[r.value := Blank().(used := true)]
    {
      var i := 0;
      while i < nodes.Length
        invariant i <= nodes.Length && nodes[..] == old(nodes[..]) && forall j :: 0 <= j < i ==> nodes[j].used
      {
        if !nodes[i].used {
          nodes[i] := Blank().(used := true);
          return Some(i);
        }
        i := i + 1;
      }
      return None;
    }

    /** A new empty file or directory of a name that the directory does not have. */
    method AddChild(path: string, place: Place, isDir: bool) returns (r: Option<nat>)
      requires Valid() && ParentOf(nodes[..], path) == Ok(place) && Find(nodes[..], 0, Resolve(path)).None?
      modifies nodes
      ensures Valid()
      ensures r.Some? <==> HasRoom(old(nodes[..]), place.dir)
      ensures r.None? ==> nodes[..] == old(nodes[..])
      ensures r.Some? ==>
        && Find(nodes[..], 0, Resolve(path)) == r && r.value < nodes.Length && nodes[r.value].used
        && nodes[r.value].isDir == isDir && nodes[r.value].size == 0 && nodes[r.value].cap == 0
        && (forall f :: 0 <= f < fds.Length && fds[f].used ==> fds[f].node != r.value)
        && forall q :: Sees(q) == if q == Resolve(path) then (if isDir then Dir else File([])) else old(Sees(q))
    {
      hide Tree, Rooted, Accounts, KidOf, Find, Resolve, Data;
      ghost var ns := nodes[..];
      PlaceFound(ns, path);
      var p, name := place.dir, place.name;
      if |nodes[p].children| >= MAX_CHILDREN {
        return None;
      }
      r := AllocNode();
      if r.None? {
        return;
      }
      var c := r.value;
      ghost var front := Resolve(path)[..|Resolve(path)| - 1];
      RootUsed(ns);
      nodes[c] := nodes[c].(isDir := isDir, parent := Some(p), name := name);
      nodes[p] := nodes[p].(children := nodes[p].children + [c]);
      ghost var node := Blank().(used := true, isDir := isDir, parent := Some(p), name := name);
      assert nodes[..] == WithChild(ns, p, c, node);
      AddedGood(ns, pages.Bits(), foreign, fds[..], p, c, node, front);
      forall q ensures Sees(q) == if q == Resolve(path) then (if isDir then Dir else File([])) else old(Sees(q)) {
        ViewGrown(ns, Heap(), p, c, node, front, q);
        NoData(node, Heap());
      }
    }

    method Mkdir(path: string) returns (r: Status)
      requires Valid()
      modifies nodes
      ensures Valid()
      ensures r == MkdirStatus(old(nodes[..]), path)
      ensures forall q :: Sees(q) == if r.Fine? && q == Resolve(path) then Dir else old(Sees(q))
    {
      hide Tree, Rooted, Accounts, Held, FdsOk, KidOf, Find, Resolve, View, HasRoom;
      var i := Lookup(path);
      if i.Some? {
        return Failed(Exist);
      }
      var place := EnsureParent(path);
      if place.Bad? {
        return Failed(place.e);
      }
      var c := AddChild(path, place.v, true);
      return if c.None? then Failed(NoSpc) else Fine;
    }

    // ---- bytes ----

    /** Copies bytes into a run of pages that none of the others has. */
    method CopyTo(q: nat, n: nat, off: nat, buf: seq<byte>)
      requires heap + Size(pages.count) <= |ram.bytes| && KeptFor(ram.bytes, held, heap, foreign)
      requires |foreign| == pages.count
      requires q + n <= pages.count && off + |buf| <= Size(n) && NoneForeign(foreign, q, n)
      modifies ram
      ensures |ram.bytes| == |old(ram.bytes)| && KeptFor(ram.bytes, held, heap, foreign)
      ensures Heap() == Copied(old(Heap()), Size(q) + off, buf)
    {
      hide KeptFor, NoneForeign, Patch, Copied;
      RunWithin(q, n, pages.count);
      PatchedHeap(ram.bytes, heap, pages.count, Size(q) + off, buf);
      PatchedKept(ram.bytes, held, heap, foreign, q, n, off, buf);
      ram.bytes := Patch(ram.bytes, heap + Size(q) + off, buf);
    }

    /** Gives pages back; their bytes are poisoned. */
    method FreePages(q: nat, n: nat)
      requires pages.Valid() && heap + Size(pages.count) <= |ram.bytes| && KeptFor(ram.bytes, held, heap, foreign)
      requires |foreign| == pages.count && q + n <= pages.count && NoneForeign(foreign, q, n)
      modifies ram, pages.cells
      ensures |ram.bytes| == |old(ram.bytes)| && KeptFor(ram.bytes, held, heap, foreign)
      ensures ChangedIn(old(Heap()), Heap(), q, n) && pages.Bits() == WithRun(old(pages.Bits()), q, n, false)
    {
      hide KeptFor, NoneForeign, Patch, Copied, ChangedIn, PageMap.Bits, WithRun;
      ghost var was := Heap();
      CopiedIn(was, q, n, 0, seq(Size(n), _ => POISON));
      CopyTo(q, n, 0, seq(Size(n), _ => POISON));
      pages.Free(q, n);
    }

    /** Copies a file's bytes to a longer run. */
    method CopyOver(node: Node, q: nat, m: nat)
      requires heap + Size(pages.count) <= |ram.bytes| && KeptFor(ram.bytes, held, heap, foreign)
      requires |foreign| == pages.count
      requires 0 < node.size <= Size(node.cap) && node.cap <= m && q + m <= pages.count && NoneForeign(foreign, q, m)
      requires node.cap > 0 ==> Size(node.at) + Size(node.cap) <= |Heap()|
      modifies ram
      ensures |ram.bytes| == |old(ram.bytes)| && KeptFor(ram.bytes, held, heap, foreign)
      ensures ChangedIn(old(Heap()), Heap(), q, m) && Data(node.(at := q, cap := m), Heap()) == Data(node, old(Heap()))
    {
      hide Data, ChangedIn, Copied, KeptFor, NoneForeign;
      ghost var was := Heap();
      RunWithin(q, m, pages.count);
      CopiedOver(node, was, q, m);
      DataIs(node, was);
      SliceOf(ram.bytes, heap, Size(pages.count), Size(node.at), node.size);
      CopyTo(q, m, 0, ram.bytes[heap + Size(node.at)..heap + Size(node.at) + node.size]);
    }

    /** A longer run of pages for a file; its bytes are copied over if they are to be kept. */
    method Grab(i: nat, m: nat, keep: bool) returns (ok: bool)
      requires Valid() && i < nodes.Length && nodes[i].used && !nodes[i].isDir && m > nodes[i].cap
      modifies nodes, pages.cells, ram
      ensures Valid()
      ensures ok <==> !NoRoom(old(pages.Bits()), m)
      ensures !ok ==> nodes[..] == old(nodes[..]) && Heap() == old(Heap())
      ensures ok ==>
        && OnlyData(old(nodes[..]), nodes[..], i) && nodes[i].size == old(nodes[i].size) && nodes[i].cap == m
        && (forall j :: 0 <= j < nodes.Length && j != i && nodes[j].used ==>
           Data(nodes[j], Heap()) == Data(nodes[j], old(Heap())))
        && (keep ==> Data(nodes[i], Heap()) == Data(old(nodes[i]), old(Heap())))
    {
      hide Tree, Rooted, Accounts, Data, FreeRun, WithRun, ChangedIn, Copied, NoRoom, KeptFor, NoneForeign,
           PageMap.Bits, Good, Held, FdsOk;
      ghost var ns, bits, was := nodes[..], pages.Bits(), Heap();
      var q := pages.Alloc(m);
      if q.None? {
        return false;
      }
      SomeRoom(bits, q.value, m);
      FreeNotForeign(ns, bits, foreign, q.value, m);
      OwnNotForeign(ns, bits, foreign, i);
      PagesInMemory(ns, bits, foreign, i);
      RunInMemory(bits, q.value, m);
      var node := nodes[i];
      if keep && node.size > 0 {
        CopyOver(node, q.value, m);
      } else {
        NothingCopied(was, q.value, m);
        if keep {
          NoData(node, was);
          NoData(node.(at := q.value, cap := m), was);
        }
      }
      ghost var mem1 := Heap();
      AllKept(ns, bits, foreign, q.value, m, was, mem1);
      if node.cap > 0 {
        FreePages(node.at, node.cap);
        NewApart(ns, bits, foreign, i, q.value, m);
      } else {
        NothingCopied(mem1, node.at, 0);
      }
      OthersKept(ns, bits, foreign, i, mem1, Heap());
      assert Size(node.cap) <= Size(m);
      DataKept(node.(at := q.value, cap := m), mem1, Heap(), node.at, node.cap);
      NoRun(WithRun(bits, q.value, m, true), node.at);
      nodes[i] := node.(at := q.value, cap := m);
      MovedGood(ns, nodes[..], i, bits, foreign);
      FdsStay(ns, nodes[..], i, fds[..]);
      return true;
    }

    /** Replaces or makes a file with the bytes given. */
    method WriteFile(path: string, data: seq<byte>) returns (r: Status)
      requires Valid()
      modifies nodes, pages.cells, ram
      ensures Sound() && (Valid() <==> !(r.Fine? && Needed(old(nodes[..]), fds[..], path, |data| + 1)))
      ensures r == WriteStatus(old(nodes[..]), old(pages.Bits()), path, |data|)
      ensures forall q :: q != Resolve(path) ==> Sees(q) == old(Sees(q))
      ensures r.Fine? ==> Sees(Resolve(path)) == File(data)
      ensures !r.Fine? ==>
        Sees(Resolve(path)) == if Creates(old(nodes[..]), path) then File([]) else old(Sees(Resolve(path)))
    {
      hide Tree, Rooted, Accounts, Held, KidOf, Find, Resolve, Data, View, HasRoom, ParentOf, NoRoom, PageMap.Bits,
           FdsOk;
      ghost var ns0 := nodes[..];
      var found := Lookup(path);
      var i;
      if found.None? {
        var place := EnsureParent(path);
        if place.Bad? {
          return Failed(place.e);
        }
        var c := AddChild(path, place.v, false);
        if c.None? {
          return Failed(NoSpc);
        }
        i := c.value;
      } else {
        i := found.value;
        FoundUsed(ns0, Resolve(path));
        NeededWithin(ns0, fds[..], path, i, |data|);
      }
      r := Fill(path, i, data);
    }

    /** The part of writing a file that comes after finding or making its node. */
    method Fill(path: string, i: nat, data: seq<byte>) returns (r: Status)
      requires Valid() && Find(nodes[..], 0, Resolve(path)) == Some(i) && i < nodes.Length && nodes[i].used
      modifies nodes, pages.cells, ram
      ensures Sound() && (Valid() <==> (r.Fine? ==> Within(fds[..], i, |data|)))
      ensures r == FillStatus(old(nodes[i]), old(pages.Bits()), |data|)
      ensures forall q :: Sees(q) == if r.Fine? && q == Resolve(path) then File(data) else old(Sees(q))
    {
      hide Tree, Rooted, Accounts, Held, KidOf, Find, Resolve, Data, View, NoRoom, PageMap.Bits, KeptFor, Good, FdsOk;
      ghost var ns, was := nodes[..], Heap();
      GoodTree(ns, pages.Bits(), foreign);
      if nodes[i].isDir {
        return Failed(IsDir);
      }
      if |data| > FILE_MAX {
        return Failed(NoSpc);
      }
      var ok := Replace(i, data);
      if !ok {
        return Failed(NoSpc);
      }
      assert forall j :: 0 <= j < |ns| && j != i && ns[j].used ==>
        nodes[j] == ns[j] && Data(ns[j], Heap()) == Data(ns[j], was);
      forall q ensures Sees(q) == if q == Resolve(path) then File(data) else old(Sees(q)) {
        ViewWritten(ns, nodes[..], was, Heap(), i, Resolve(path), q);
      }
      return Fine;
    }

    /** A file's bytes replaced, in other pages if it has too few. */
    method Replace(i: nat, data: seq<byte>) returns (ok: bool)
      requires Valid() && i < nodes.Length && nodes[i].used && !nodes[i].isDir
      modifies nodes, pages.cells, ram
      ensures Sound() && (Valid() <==> (ok ==> Within(fds[..], i, |data|)))
      ensures ok <==> |data| <= Size(old(nodes[i].cap)) || !NoRoom(old(pages.Bits()), PagesFor(|data|))
      ensures !ok ==> nodes[..] == old(nodes[..]) && Heap() == old(Heap())
      ensures ok ==>
        && OnlyData(old(nodes[..]), nodes[..], i) && Data(nodes[i], Heap()) == data
        && forall j :: 0 <= j < nodes.Length && j != i && nodes[j].used ==>
           Data(nodes[j], Heap()) == Data(nodes[j], old(Heap()))
    {
      hide Tree, Rooted, Accounts, Held, Data, NoRoom, PageMap.Bits, WithRun, ChangedIn, Copied, KeptFor, NoneForeign,
           Good;
      if Size(nodes[i].cap) < |data| {
        MorePages(|data|, nodes[i].cap);
        ok := Grab(i, PagesFor(|data|), false);
        if !ok {
          return;
        }
      }
      ghost var ns1, mem1 := nodes[..], Heap();
      PagesInMemory(ns1, pages.Bits(), foreign, i);
      OwnNotForeign(ns1, pages.Bits(), foreign, i);
      if data != [] {
        CopyTo(nodes[i].at, nodes[i].cap, 0, data);
      }
      CopiedAll(ns1[i], mem1, data);
      nodes[i] := nodes[i].(size := |data|);
      assert nodes[..] == ns1[i := ns1[i].(size := |data|)];
      SizedGood(ns1, nodes[..], i, pages.Bits(), foreign);
      FdsSized(ns1, nodes[..], i, fds[..]);
      OthersKept(ns1, pages.Bits(), foreign, i, mem1, Heap());
      return true;
    }

    // ---- descriptors ----

    /** Bytes put into a file at a place within it or at its end; it grows if they reach past that. */
    method Insert(i: nat, off: nat, buf: seq<byte>) returns (ok: bool)
      requires Valid() && i < nodes.Length && nodes[i].used && !nodes[i].isDir && off <= nodes[i].size
      modifies nodes, pages.cells, ram
      ensures Valid()
      ensures ok <==> off + |buf| <= Size(old(nodes[i].cap)) || !NoRoom(old(pages.Bits()), PagesFor(off + |buf|))
      ensures !ok ==> nodes[..] == old(nodes[..]) && Heap() == old(Heap())
      ensures ok ==>
        && OnlyData(old(nodes[..]), nodes[..], i) && off <= |Data(old(nodes[i]), old(Heap()))|
        && off + |buf| <= nodes[i].size
        && (forall j :: 0 <= j < nodes.Length && j != i && nodes[j].used ==>
           Data(nodes[j], Heap()) == Data(nodes[j], old(Heap())))
        && Data(nodes[i], Heap()) == Overwrite(Data(old(nodes[i]), old(Heap())), off, buf)
    {
      hide Tree, Rooted, Accounts, KidOf, Find, Data, View, NoRoom, PageMap.Bits, WithRun, ChangedIn, Copied, Overwrite,
           Held, KeptFor, NoneForeign, Good, FdsOk;
      ghost var ns, bits, was := nodes[..], pages.Bits(), Heap();
      PagesInMemory(ns, bits, foreign, i);
      DataLong(ns[i], was);
      var need := off + |buf|;
      if need > Size(nodes[i].cap) {
        MorePages(need, nodes[i].cap);
        ok := Grab(i, PagesFor(need), true);
        if !ok {
          return;
        }
      }
      ghost var ns1, mem1 := nodes[..], Heap();
      PagesInMemory(ns1, pages.Bits(), foreign, i);
      OwnNotForeign(ns1, pages.Bits(), foreign, i);
      CopiedIn(mem1, ns1[i].at, ns1[i].cap, off, buf);
      CopiedData(ns1[i], mem1, off, buf);
      if buf == [] {
        CopiedNothing(mem1, Size(ns1[i].at) + off);
      } else {
        CopyTo(nodes[i].at, nodes[i].cap, off, buf);
      }
      OthersKept(ns1, pages.Bits(), foreign, i, mem1, Heap());
      if need > nodes[i].size {
        nodes[i] := nodes[i].(size := need);
      }
      assert nodes[..] == ns1[i := ns1[i].(size := if need > ns1[i].size then need else ns1[i].size)];
      SizedGood(ns1, nodes[..], i, pages.Bits(), foreign);
      FdsStay(ns1, nodes[..], i, fds[..]);
      return true;
    }

    /** Writes at the descriptor's position. */
    method Write(fd: int, buf: seq<byte>) returns (r: Result<nat>)
      requires Valid() && fd < FIRST_FAT_FD
      modifies nodes, fds, pages.cells, ram
      ensures Valid()
      ensures r == WriteResult(old(nodes[..]), old(fds[..]), old(pages.Bits()), fd, |buf|)
      ensures r.Bad? ==> fds[..] == old(fds[..]) && forall q :: Sees(q) == old(Sees(q))
      ensures r.Ok? ==>
        var f := old(fds[..])[fd];
        var was := Data(old(nodes[..])[f.node], old(Heap()));
        && fds[..] == old(fds[..])[fd := f.(offset := f.offset + |buf|)] && f.offset <= |was|
        && forall p, q :: Find(old(nodes[..]), 0, p) == Some(f.node) ==>
          Sees(q) == if q == p then File(Overwrite(was, f.offset, buf)) else old(Sees(q))
    {
      hide Tree, Rooted, Accounts, KidOf, Find, Data, View, NoRoom, PageMap.Bits, Held, Overwrite, KeptFor, Good, FdsOk;
      if fd < 0 || fd >= MAX_FD || !fds[fd].used {
        return Bad(BadFd);
      }
      ghost var ns, was := nodes[..], Heap();
      FdAt(ns, fds[..], fd);
      GoodTree(ns, pages.Bits(), foreign);
      var f := fds[fd];
      var i := f.node;
      if !f.flags.write {
        return Bad(Inval);
      }
      if nodes[i].isDir {
        return Bad(IsDir);
      }
      if f.offset + |buf| > FILE_MAX {
        return Bad(NoSpc);
      }
      var ok := Insert(i, f.offset, buf);
      if !ok {
        return Bad(NoSpc);
      }
      FdMoved(nodes[..], fds[..], fd, f.offset + |buf|);
      fds[fd] := f.(offset := f.offset + |buf|);
      assert fds[..] == old(fds[..])[fd := f.(offset := f.offset + |buf|)];
      assert forall j :: 0 <= j < |ns| && j != i && ns[j].used ==>
        nodes[j] == ns[j] && Data(ns[j], Heap()) == Data(ns[j], was);
      forall p, q | Find(ns, 0, p) == Some(i)
        ensures Sees(q) == if q == p then File(Overwrite(Data(ns[i], was), f.offset, buf)) else old(Sees(q))
      {
        ViewWritten(ns, nodes[..], was, Heap(), i, p, q);
      }
      return Ok(|buf|);
    }

    /** Reads from the descriptor's position on. */
    method Read(fd: int, n: nat) returns (r: Result<seq<byte>>)
      requires Valid() && fd < FIRST_FAT_FD
      modifies fds
      ensures Valid()
      ensures r.Bad? ==> fds[..] == old(fds[..])
      ensures r.Ok? <==>
        0 <= fd < MAX_FD && old(fds[..])[fd].used && old(fds[..])[fd].flags.read && !nodes[old(fds[..])[fd].node].isDir
      ensures r.Ok? ==>
        var f := old(fds[..])[fd];
        var data := Data(nodes[f.node], Heap());
        && f.offset <= |data| && r.v == data[f.offset..if f.offset + n <= |data| then f.offset + n else |data|]
        && fds[..] == old(fds[..])[fd := f.(offset := f.offset + |r.v|)]
    {
      hide Tree, Rooted, Accounts, PageMap.Bits, Data, Held, KeptFor, Good, FdsOk;
      if fd < 0 || fd >= MAX_FD || !fds[fd].used {
        return Bad(BadFd);
      }
      FdAt(nodes[..], fds[..], fd);
      var f := fds[fd];
      if !f.flags.read {
        return Bad(Inval);
      }
      if nodes[f.node].isDir {
        return Bad(IsDir);
      }
      PagesInMemory(nodes[..], pages.Bits(), foreign, f.node);
      DataLong(nodes[f.node], Heap());
      if f.offset >= nodes[f.node].size {
        return Ok([]);
      }
      var avail := nodes[f.node].size - f.offset;
      var k := if n > avail then avail else n;
      var from := heap + Size(nodes[f.node].at) + f.offset;
      var bytes := ram.bytes[from..from + k];
      SliceOf(ram.bytes, heap, Size(pages.count), from - heap, k);
      SliceOf(Heap(), Size(nodes[f.node].at), nodes[f.node].size, f.offset, k);
      FdMoved(nodes[..], fds[..], fd, f.offset + k);
      fds[fd] := f.(offset := f.offset + k);
      assert fds[..] == old(fds[..])[fd := f.(offset := f.offset + k)];
      return Ok(bytes);
    }

    method Close(fd: int) returns (r: Status)
      requires Valid() && fd < FIRST_FAT_FD
      modifies fds
      ensures Valid()
      ensures r.Fine? <==> 0 <= fd < MAX_FD && old(fds[..])[fd].used
      ensures fds[..] == if r.Fine? then old(fds[..])[fd := old(fds[..])[fd].(used := false)] else old(fds[..])
    {
      hide Good;
      if fd < 0 || fd >= MAX_FD || !fds[fd].used {
        return Failed(BadFd);
      }
      fds[fd] := fds[fd].(used := false);
      return Fine;
    }

    // ---- opening and removing ----

    method AllocFd() returns (r: Option<nat>)
      requires fds.Length == MAX_FD
      ensures r.Some? ==> FIRST_FD <= r.value < MAX_FD && !fds[r.value].used && forall f :: FIRST_FD <= f < r.value ==>
        fds[f].used
      ensures r.None? ==> forall f :: FIRST_FD <= f < MAX_FD ==> fds[f].used
    {
      var i := FIRST_FD;
      while i < MAX_FD
        invariant FIRST_FD <= i <= MAX_FD && forall f :: FIRST_FD <= f < i ==> fds[f].used
      {
        if !fds[i].used {
          return Some(i);
        }
        i := i + 1;
      }
      return None;
    }

    /** Makes the file if asked to, truncates it if asked to, and takes the first free descriptor. */
    method Open(path: string, flags: Flags) returns (r: Result<nat>)
      requires Valid()
      modifies nodes, fds, pages.cells, ram
      ensures Sound()
      ensures Valid() <==>
        !(flags.trunc && flags.write && old(Sees(Resolve(path))).File? && Needed(old(nodes[..]), old(fds[..]), path, 1))
      ensures forall q :: q != Resolve(path) ==> Sees(q) == old(Sees(q))
      ensures Sees(Resolve(path)) == Opened(old(Sees(Resolve(path))), flags, Creates(old(nodes[..]), path))
      ensures r == OpenResult(Sees(Resolve(path)), flags, old(fds[..]))
      ensures r.Bad? ==> fds[..] == old(fds[..])
      ensures r.Ok? ==> OpenedAs(nodes[..], old(fds[..]), fds[..], path, r.v, flags)
    {
      hide Tree, Rooted, Accounts, Held, KidOf, Find, Resolve, Data, HasRoom, ParentOf, NoRoom, PageMap.Bits,
           WriteStatus, Good;
      var found := Lookup(path);
      var i;
      if found.None? {
        NothingThere(nodes[..], Heap(), Resolve(path));
        if !flags.create {
          return Bad(NoEnt);
        }
        NothingNeeded(nodes[..], pages.Bits(), path);
        var made := WriteFile(path, []);
        if made.Failed? {
          return Bad(NoSpc);
        }
        found := Lookup(path);
        if found.None? {
          return Bad(NoEnt);
        }
        i := found.value;
        EmptyFile(nodes[..], pages.Bits(), foreign, Heap(), fds[..], i, Resolve(path));
      } else {
        i := found.value;
        NeededWithin(nodes[..], fds[..], path, i, 0);
      }
      r := OpenNode(path, i, flags);
    }

    method OpenNode(path: string, i: nat, flags: Flags) returns (r: Result<nat>)
      requires Valid() && Find(nodes[..], 0, Resolve(path)) == Some(i)
      modifies nodes, fds
      ensures Sound()
      ensures Valid() <==> (flags.trunc && flags.write && old(Sees(Resolve(path))).File? ==> Within(old(fds[..]), i, 0))
      ensures forall q :: q != Resolve(path) ==> Sees(q) == old(Sees(q))
      ensures !old(Sees(Resolve(path))).Gone?
      ensures Sees(Resolve(path)) == Opened(old(Sees(Resolve(path))), flags, true)
      ensures r == OpenResult(Sees(Resolve(path)), flags, old(fds[..]))
      ensures r.Bad? ==> fds[..] == old(fds[..])
      ensures r.Ok? ==> OpenedAs(nodes[..], old(fds[..]), fds[..], path, r.v, flags)
    {
      hide Tree, Rooted, Accounts, Held, KidOf, Find, Resolve, Data, PageMap.Bits, Good;
      GoodTree(nodes[..], pages.Bits(), foreign);
      FoundUsed(nodes[..], Resolve(path));
      if nodes[i].isDir && !flags.dir {
        return Bad(IsDir);
      }
      if flags.trunc && flags.write && !nodes[i].isDir {
        Truncate(path, i);
      }
      var fd := AllocFd();
      if fd.None? {
        FreeFdNone(fds[..]);
        return Bad(NoSpc);
      }
      FreeFdIs(fds[..], fd.value);
      ghost var fs := fds[..];
      fds[fd.value] := Fd(true, i, if flags.append then nodes[i].size else 0, flags);
      FdTaken(nodes[..], fs, fd.value, fds[fd.value]);
      assert fds[..] == fs[fd.value := fds[fd.value]];
      return Ok(fd.value);
    }

    method Truncate(path: string, i: nat)
      requires Valid() && Find(nodes[..], 0, Resolve(path)) == Some(i) && i < nodes.Length && nodes[i].used
      requires !nodes[i].isDir
      modifies nodes
      ensures Sound() && (Valid() <==> Within(fds[..], i, 0))
      ensures forall q :: Find(nodes[..], 0, q) == old(Find(nodes[..], 0, q))
      ensures nodes[i] == old(nodes[i]).(size := 0)
      ensures forall q :: Sees(q) == if q == Resolve(path) then File([]) else old(Sees(q))
    {
      hide Tree, Rooted, Accounts, KidOf, Find, Resolve, Data, View, PageMap.Bits;
      ghost var ns := nodes[..];
      nodes[i] := nodes[i].(size := 0);
      assert nodes[..] == ns[i := ns[i].(size := 0)];
      SizedGood(ns, nodes[..], i, pages.Bits(), foreign);
      FdsSized(ns, nodes[..], i, fds[..]);
      NoData(nodes[i], Heap());
      forall q ensures Sees(q) == (if q == Resolve(path) then File([]) else old(Sees(q)))
        && Find(nodes[..], 0, q) == Find(ns, 0, q)
      {
        ViewWritten(ns, nodes[..], Heap(), Heap(), i, Resolve(path), q);
        DataFind(ns, nodes[..], i, 0, q);
      }
    }

    /** Removes a file or an empty directory and gives back exactly its pages. */
    method Unlink(path: string) returns (r: Status)
      requires Valid()
      modifies nodes, pages.cells, ram
      ensures Sound() && (Valid() <==> !(r.Fine? && Needed(old(nodes[..]), fds[..], path, 0)))
      ensures r == UnlinkStatus(old(nodes[..]), path)
      ensures r.Failed? ==> nodes[..] == old(nodes[..]) && pages.Bits() == old(pages.Bits())
      ensures forall q :: Sees(q) == if r.Fine? && q == Resolve(path) then Gone else old(Sees(q))
      ensures r.Fine? ==>
        var n := old(nodes[..])[Find(old(nodes[..]), 0, Resolve(path)).value];
        pages.Bits() == WithRun(old(pages.Bits()), n.at, n.cap, false)
    {
      hide Tree, Rooted, Accounts, Held, KidOf, Find, Resolve, Data, View, PageMap.Bits, WithRun, Removed;
      ghost var ns, bits := nodes[..], pages.Bits();
      var found := Lookup(path);
      if found.None? || found.value == 0 {
        return Failed(NoEnt);
      }
      var c := found.value;
      FoundUsed(ns, Resolve(path));
      PathTo(ns, c, Resolve(path));
      ParentListed(ns, c);
      var p := nodes[c].parent.value;
      if p == 0 && nodes[c].name in ["sys", "disk"] {
        return Failed(Inval);
      }
      if nodes[c].isDir && |nodes[c].children| > 0 {
        return Failed(Inval);
      }
      var k := 0;
      while k < |nodes[p].children| && nodes[p].children[k] != c
        invariant k <= |nodes[p].children| && forall j :: 0 <= j < k ==> nodes[p].children[j] != c
      {
        k := k + 1;
      }
      nodes[p] := nodes[p].(children := Removed(nodes[p].children, k));
      OwnNotForeign(ns, bits, foreign, c);
      ghost var was := Heap();
      if nodes[c].cap > 0 {
        FreePages(nodes[c].at, nodes[c].cap);
      } else {
        NothingCopied(was, nodes[c].at, 0);
      }
      OthersKept(ns, bits, foreign, c, was, Heap());
      NoRun(bits, nodes[c].at);
      nodes[c] := nodes[c].(used := false);
      assert nodes[..] == Without(ns, p, k, c);
      RemovedGood(ns, bits, foreign, fds[..], p, k, c);
      forall j | 0 <= j < nodes.Length && nodes[j].used ensures Data(nodes[j], Heap()) == Data(nodes[j], was) {
        SameData(ns[j], nodes[j], was);
        SameData(ns[j], nodes[j], Heap());
      }
      GoodTree(nodes[..], pages.Bits(), foreign);
      forall q ensures Sees(q) == if q == Resolve(path) then Gone else old(Sees(q)) {
        ViewPruned(ns, was, p, k, c, Resolve(path), q);
        ViewSame(nodes[..], was, Heap(), q);
      }
      return Fine;
    }
  }

  lemma Split(norm: string, parts: seq<string>, tail: bool, slash: nat)
    requires Shape(norm, parts, tail, PATH_MAX) && parts != []
    requires slash < |norm| && norm[slash] == '/' && forall k :: slash < k < |norm| ==> norm[k] != '/'
    ensures var front := if tail then parts else parts[..|parts| - 1];
      && Resolve(if slash == 0 then "/" else norm[..slash]) == front
      && norm[slash + 1..] == (if tail then [] else parts[|parts| - 1])
      && tail == (norm[|norm| - 1] == '/') && (tail || (norm[slash + 1..] != [] && |norm[slash + 1..]| < NAME_MAX))
  {
    hide Joined, Comps, Buffered;
    var front := if tail then parts else parts[..|parts| - 1];
    LastSlash(norm, parts, tail, PATH_MAX, slash);
    NamesFront(parts, |parts| - 1);
    ResolveFront(front);
    JoinedNothing();
    if front != [] {
      JoinedFirst(front);
    }
    assert slash == |Joined(front)|;
  }

  lemma ShapeStart(norm: string, parts: seq<string>, tail: bool, n: nat)
    requires Shape(norm, parts, tail, n) && Comps(norm) == parts
    ensures norm != [] && norm[0] == '/' && Short(Comps(norm)) && (norm == "/" ==> parts == [])
    ensures parts == [] ==> norm == "/"
  {
    hide Comps, Joined;
    JoinedNothing();
    if parts != [] {
      JoinedFirst(parts);
      assert |parts[0]| > 0;
    }
  }

  lemma FindHere(ns: seq<Node>, cur: nat)
    ensures Find(ns, cur, []) == Some(cur)
  {}

  lemma WalkFind(ns: seq<Node>, cur: nat, part: string, rest: seq<string>)
    requires Tree(ns) && cur < |ns| && ns[cur].used
    ensures var c := KidOf(ns, ns[cur].children, part);
      && Find(ns, cur, [part] + rest) == (if c.None? then None else Find(ns, c.value, rest))
      && (!ns[cur].isDir ==> c.None?)
  {
    assert NodeOk(ns, cur);
    assert ([part] + rest)[1..] == rest;
  }
}
