/** What the calls of the in-memory volume answer, in terms of what is seen at paths. */
module VfsStatus {
  import opened Wrappers
  import opened Bytes
  import opened Pages
  import opened VfsPath
  import opened VfsTree
  import opened VfsFiles
  import opened Vfs

  /** The buffer took a slash behind which the next name did not fit. */
  predicate CutShort(path: string) {
    var norm := Buffered(path, PATH_MAX);
    |norm| > 1 && norm[|norm| - 1] == '/'
  }

  lemma SeenIs(ns: seq<Node>, mem: seq<byte>, p: seq<string>)
    requires Tree(ns)
    ensures var i := Find(ns, 0, p);
      && (View(ns, mem, p) == Gone <==> i.None?) && (i.Some? ==> i.value < |ns|)
      && (View(ns, mem, p) == Dir <==> i.Some? && ns[i.value].isDir)
  {
    hide Tree, Find;
    RootUsed(ns);
    FindUsed(ns, 0, p);
  }

  /** The root is always there, so a path at which nothing is has a last name. */
  lemma GoneNamed(ns: seq<Node>, mem: seq<byte>, path: string)
    requires Tree(ns) && View(ns, mem, Resolve(path)) == Gone
    ensures Resolve(path) != [] && |Buffered(path, PATH_MAX)| > 1
  {
    hide Tree, Buffered, Comps, View;
    SeenIs(ns, mem, Resolve(path));
    var parts, tail := BufferedShape(path, PATH_MAX);
    ShapeStart(Buffered(path, PATH_MAX), parts, tail, PATH_MAX);
    assert Find(ns, 0, []) == Some(0);
  }

  /** Where nothing is, a new name can be entered if and only if its path is whole and its parent is a directory. */
  lemma ParentMeans(ns: seq<Node>, mem: seq<byte>, path: string)
    requires Tree(ns) && View(ns, mem, Resolve(path)) == Gone
    ensures var p := Resolve(path);
      && p != []
      && (ParentOf(ns, path).Ok? <==> !CutShort(path) && View(ns, mem, p[..|p| - 1]) == Dir)
      && (ParentOf(ns, path).Bad? ==> ParentOf(ns, path).e == NoEnt)
      && (ParentOf(ns, path).Ok? ==> Find(ns, 0, p[..|p| - 1]) == Some(ParentOf(ns, path).v.dir))
  {
    hide Tree, Find, Buffered, Comps, View, Resolve;
    var p := Resolve(path);
    GoneNamed(ns, mem, path);
    SeenIs(ns, mem, p);
    SeenIs(ns, mem, p[..|p| - 1]);
  }

  /** A directory has room for one more name, and there is a row for it. */
  ghost predicate RoomAt(ns: seq<Node>, p: seq<string>) {
    var i := Find(ns, 0, p);
    i.Some? && HasRoom(ns, i.value)
  }

  /**
   * Making a directory fails because something is there, because its parent is no directory, or for want of room; else
   * it works.
   */
  lemma MkdirMeans(ns: seq<Node>, mem: seq<byte>, path: string)
    requires Tree(ns)
    ensures var p, r := Resolve(path), MkdirStatus(ns, path);
      && (r == Failed(Exist) <==> View(ns, mem, p) != Gone)
      && (r != Failed(Exist) ==>
            && p != []
            && (r == Failed(NoEnt) <==> CutShort(path) || View(ns, mem, p[..|p| - 1]) != Dir)
            && (r != Failed(NoEnt) ==> r == if RoomAt(ns, p[..|p| - 1]) then Fine else Failed(NoSpc)))
  {
    hide Tree, Find, Resolve, View, HasRoom, ParentOf, CutShort;
    var p := Resolve(path);
    SeenIs(ns, mem, p);
    if View(ns, mem, p) == Gone {
      ParentMeans(ns, mem, path);
    }
  }

  /** Writing a file whole fails at a directory, without a parent directory, or for want of room. */
  lemma WriteMeans(ns: seq<Node>, mem: seq<byte>, bits: seq<bool>, path: string, len: nat)
    requires Tree(ns)
    ensures var p, r := Resolve(path), WriteStatus(ns, bits, path, len);
      && (r == Failed(IsDir) <==> View(ns, mem, p) == Dir)
      && (r == Failed(NoEnt) <==>
            View(ns, mem, p) == Gone && (p == [] || CutShort(path) || View(ns, mem, p[..|p| - 1]) != Dir))
      && r in {Fine, Failed(IsDir), Failed(NoEnt), Failed(NoSpc)}
      && (len > FILE_MAX ==> r != Fine)
      && (View(ns, mem, p) == Gone && r == Fine ==> p != [] && RoomAt(ns, p[..|p| - 1]))
      && (len <= FILE_MAX && !NoRoom(bits, PagesFor(len)) && r == Failed(NoSpc) ==>
            View(ns, mem, p) == Gone && p != [] && !RoomAt(ns, p[..|p| - 1]))
  {
    hide Tree, Find, Resolve, View, HasRoom, ParentOf, CutShort, NoRoom;
    var p := Resolve(path);
    SeenIs(ns, mem, p);
    if View(ns, mem, p) == Gone {
      ParentMeans(ns, mem, path);
    }
  }

  /** Nothing is seen below a path. */
  ghost predicate NothingBelow(ns: seq<Node>, mem: seq<byte>, p: seq<string>) {
    forall x :: View(ns, mem, p + [x]) == Gone
  }

  /**
   * The root and what is not there cannot be unlinked, nor the two fixed directories, nor a directory with something in
   * it; anything else can.
   */
  lemma UnlinkMeans(ns: seq<Node>, mem: seq<byte>, path: string)
    requires Tree(ns)
    ensures var p, r := Resolve(path), UnlinkStatus(ns, path);
      && (r == Failed(NoEnt) <==> p == [] || View(ns, mem, p) == Gone)
      && (r != Failed(NoEnt) ==>
            r == if p in {["sys"], ["disk"]} || !NothingBelow(ns, mem, p) then Failed(Inval) else Fine)
  {
    hide Tree, Find, Resolve, View;
    var p := Resolve(path);
    SeenIs(ns, mem, p);
    RootPath(ns, p);
    if Find(ns, 0, p).Some? && p != [] {
      FixedPath(ns, p);
      BelowIs(ns, mem, p);
      FoundUsed(ns, p);
      FileBare(ns, Find(ns, 0, p).value);
    }
  }

  lemma RootPath(ns: seq<Node>, p: seq<string>)
    requires Tree(ns)
    ensures Find(ns, 0, p) == Some(0) <==> p == []
  {
    hide Tree;
    if p != [] {
      LastStep(ns, p);
    }
  }

  /** The two fixed directories are named right below the root. */
  lemma FixedPath(ns: seq<Node>, p: seq<string>)
    requires Tree(ns) && p != [] && Find(ns, 0, p).Some?
    ensures var i := Find(ns, 0, p).value;
      i < |ns| && (ns[i].parent == Some(0) && ns[i].name in ["sys", "disk"] <==> p in {["sys"], ["disk"]})
  {
    hide Tree, Find;
    LastStep(ns, p);
    RootPath(ns, p[..|p| - 1]);
    assert p == p[..|p| - 1] + [p[|p| - 1]];
  }

  lemma FileBare(ns: seq<Node>, i: nat)
    requires Tree(ns) && i < |ns| && ns[i].used
    ensures !ns[i].isDir ==> ns[i].children == []
  {
  }

  /** Something is seen below a node if and only if it has children. */
  lemma BelowIs(ns: seq<Node>, mem: seq<byte>, p: seq<string>)
    requires Tree(ns) && Find(ns, 0, p).Some?
    ensures var i := Find(ns, 0, p).value; i < |ns| && (NothingBelow(ns, mem, p) <==> ns[i].children == [])
  {
    hide Tree, Find, View, KidOf;
    RootUsed(ns);
    FindUsed(ns, 0, p);
    var i := Find(ns, 0, p).value;
    forall x ensures View(ns, mem, p + [x]) == Gone <==> KidOf(ns, ns[i].children, x).None? {
      FindLast(ns, 0, p, x);
      SeenIs(ns, mem, p + [x]);
    }
    if ns[i].children == [] {
      forall x ensures KidOf(ns, ns[i].children, x).None? {
        NoKidAt(ns, x);
      }
    } else {
      var c := ns[i].children[0];
      KidNamed(ns, i, c);
      assert View(ns, mem, p + [ns[c].name]) != Gone;
    }
  }

  lemma NoKidAt(ns: seq<Node>, x: string)
    ensures KidOf(ns, [], x).None?
  {
  }
}
