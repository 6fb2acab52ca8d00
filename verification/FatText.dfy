/** Path texts: how the driver splits them into components, and what two texts have to do with each other. */
module FatText {
  import opened Wrappers
  import opened Bytes
  import opened FatTable
  import opened FatState
  import opened FatNames
  import opened FatDir
  import opened FatDriver
  import opened FatPath

  const SLASH: byte := 0x2F

  /** Longest component; more text starts another one. */
  const COMP_MAX: nat := 15

  /** "/disk" */
  const DISK: Text := [0x2F, 0x64, 0x69, 0x73, 0x6B]

  /** Where a component that begins at `i` with `n` characters taken ends. */
  function CompEnd(s: Text, i: nat, n: nat): (e: nat)
    requires i <= |s| && n <= COMP_MAX
    ensures i <= e <= |s| && e <= i + COMP_MAX - n && SLASH !in s[i..e]
    ensures e == |s| || s[e] == SLASH || e == i + COMP_MAX - n
    decreases |s| - i
  {
    if i == |s| || s[i] == SLASH || n == COMP_MAX then i
    else
      var e := CompEnd(s, i + 1, n + 1);
      assert s[i..e] == [s[i]] + s[i + 1..e];
      e
  }

  /** The components of a text. */
  function Parts(s: Text): (ps: seq<Text>)
    ensures forall i :: 0 <= i < |ps| ==> 0 < |ps[i]| <= COMP_MAX && SLASH !in ps[i]
  {
    if s == [] then []
    else if s[0] == SLASH then Parts(s[1..])
    else
      var e := CompEnd(s, 0, 0);
      assert e > 0;
      [s[..e]] + Parts(s[e..])
  }

  /** A leading "/disk" only names the volume. */
  function Inside(path: Text): Text {
    if path == DISK || (|path| > 5 && path[..6] == DISK + [SLASH]) then path[5..] else path
  }

  function Packs(ps: seq<Text>): (p: Path)
    ensures |p| == |ps| && forall i :: 0 <= i < |ps| ==> p[i] == Packed(ps[i])
  {
    seq(|ps|, i requires 0 <= i < |ps| => Packed(ps[i]))
  }

  /** The path a text stands for. */
  function PathOf(path: Text): Path { Packs(Parts(Inside(path))) }

  // ---- the driver's loops ----

  /** Takes the next component off. */
  method NextComponent(path: Text, start: nat) returns (more: bool, comp: Text, p: nat)
    requires start <= |path|
    ensures start <= p <= |path| && (more ==> start < p)
    ensures Parts(path[start..]) == if more then [comp] + Parts(path[p..]) else []
  {
    hide Parts, CompEnd;
    p, comp := start, [];
    while p < |path| && path[p] == SLASH
      invariant start <= p <= |path| && Parts(path[start..]) == Parts(path[p..])
    {
      SlashSkipped(path, p);
      p := p + 1;
    }
    if p == |path| {
      NoParts(path, p);
      return false, comp, p;
    }
    ghost var from := p;
    CompStarts(path, from);
    while p < |path| && path[p] != SLASH && |comp| < COMP_MAX
      invariant from <= p <= |path| && comp == path[from..p] && |comp| <= COMP_MAX
      invariant CompEnd(path, from, 0) == CompEnd(path, p, |comp|)
      invariant p == from ==> path[p] != SLASH
    {
      CompGoesOn(path, p, |comp|);
      comp := comp + [path[p]];
      p := p + 1;
    }
    CompStops(path, p, |comp|);
    more := true;
  }

  lemma SlashSkipped(s: Text, p: nat)
    requires p < |s| && s[p] == SLASH
    ensures Parts(s[p..]) == Parts(s[p + 1..])
  {
    assert s[p..][1..] == s[p + 1..];
  }

  lemma NoParts(s: Text, p: nat)
    requires p == |s|
    ensures Parts(s[p..]) == []
  {
  }

  lemma CompStarts(s: Text, p: nat)
    requires p < |s| && s[p] != SLASH
    ensures var e := CompEnd(s, p, 0); p < e && Parts(s[p..]) == [s[p..e]] + Parts(s[e..])
  {
    hide Parts;
    var e := CompEnd(s, p, 0);
    Shifted(s, p, p, 0);
    assert s[p..][..e - p] == s[p..e] && s[p..][e - p..] == s[e..];
    FirstPart(s[p..]);
  }

  lemma FirstPart(s: Text)
    requires s != [] && s[0] != SLASH
    ensures var e := CompEnd(s, 0, 0); e > 0 && Parts(s) == [s[..e]] + Parts(s[e..])
  {
  }

  /** Where a component ends does not depend on what is before it. */
  lemma {:induction false} Shifted(s: Text, p: nat, i: nat, n: nat)
    requires p <= i <= |s| && n <= COMP_MAX
    ensures CompEnd(s[p..], i - p, n) == CompEnd(s, i, n) - p
    decreases |s| - i
  {
    if i < |s| && s[i] != SLASH && n < COMP_MAX {
      Shifted(s, p, i + 1, n + 1);
    }
  }

  lemma CompGoesOn(s: Text, p: nat, n: nat)
    requires p < |s| && s[p] != SLASH && n < COMP_MAX
    ensures CompEnd(s, p, n) == CompEnd(s, p + 1, n + 1)
  {
  }

  lemma CompStops(s: Text, p: nat, n: nat)
    requires p <= |s| && n <= COMP_MAX && (p == |s| || s[p] == SLASH || n == COMP_MAX)
    ensures CompEnd(s, p, n) == p
  {
  }

  /** Splits and packs a whole path. */
  method Split(path: Text) returns (p: Path)
    ensures p == PathOf(path)
  {
    hide Parts, Packed;
    var s, i := Inside(path), 0;
    p := [];
    assert s[0..] == s;
    while true
      invariant i <= |s| && p + Packs(Parts(s[i..])) == Packs(Parts(s))
      decreases |s| - i
    {
      var more, comp, j := NextComponent(s, i);
      if !more {
        assert p + Packs([]) == p;
        break;
      }
      assert Packs([comp] + Parts(s[j..])) == [Packed(comp)] + Packs(Parts(s[j..]));
      var want := Name83(comp);
      p := p + [want];
      i := j;
    }
  }

  // ---- texts and paths ----

  /** A slash between two texts puts their components side by side; more slashes change nothing. */
  lemma {:induction false} PartsJoin(a: Text, b: Text)
    ensures Parts(a + [SLASH] + b) == Parts(a) + Parts(b)
    decreases |a|
  {
    var s := a + [SLASH] + b;
    if a == [] {
      assert s[1..] == b;
    } else if a[0] == SLASH {
      assert s[1..] == a[1..] + [SLASH] + b;
      PartsJoin(a[1..], b);
    } else {
      hide Parts;
      FirstPart(a);
      FirstPart(s);
      var e := CompEnd(a, 0, 0);
      SameEnd(a, [SLASH] + b, 0, 0);
      assert s == a + ([SLASH] + b);
      assert s[e..] == a[e..] + [SLASH] + b && s[..e] == a[..e];
      PartsJoin(a[e..], b);
    }
  }

  /** A component ends where it ended when a slash and more text follow. */
  lemma {:induction false} SameEnd(a: Text, b: Text, i: nat, n: nat)
    requires i <= |a| && n <= COMP_MAX && b != [] && b[0] == SLASH
    ensures CompEnd(a + b, i, n) == CompEnd(a, i, n)
    decreases |a| - i
  {
    if i < |a| && a[i] != SLASH && n < COMP_MAX {
      SameEnd(a, b, i + 1, n + 1);
    }
  }

  /** Components with a slash before each. */
  function Joined(ps: seq<Text>): Text { if ps == [] then [] else Joined(ps[..|ps| - 1]) + [SLASH] + ps[|ps| - 1] }

  /** A component that fits is one component. */
  lemma OnePart(c: Text)
    requires 0 < |c| <= COMP_MAX && SLASH !in c
    ensures Parts(c) == [c]
  {
    hide Parts;
    FirstPart(c);
    var e := CompEnd(c, 0, 0);
    assert e == |c|;
    assert c[e..] == [] && c[..e] == c;
    NoParts(c, |c|);
  }

  /** Components that fit, joined by slashes, are split as they were joined. */
  lemma {:induction false} JoinedParts(ps: seq<Text>)
    requires forall i :: 0 <= i < |ps| ==> 0 < |ps[i]| <= COMP_MAX && SLASH !in ps[i]
    ensures Parts(Joined(ps)) == ps
    decreases |ps|
  {
    if ps != [] {
      hide Parts;
      var front, last := ps[..|ps| - 1], ps[|ps| - 1];
      JoinedParts(front);
      OnePart(last);
      PartsJoin(Joined(front), last);
      assert ps == front + [last];
    }
  }

  /** Text without a slash that is too long for a component stands for two or more: a file in a directory. */
  lemma LongSplits(c: Text)
    requires |c| > COMP_MAX && SLASH !in c
    ensures Parts(c) == [c[..COMP_MAX]] + Parts(c[COMP_MAX..]) && |Parts(c)| > 1
  {
    hide Parts;
    FirstPart(c);
    var e := CompEnd(c, 0, 0);
    assert e < |c| ==> c[e] in c;
    assert c[e..][0] in c;
    FirstPart(c[e..]);
  }

  /** Texts stand for the same file or directory if and only if they stand for the same path. */
  lemma SameFile(g: Geometry, d: Disk, fds: seq<Fd>, nodes: Nodes, a: Text, b: Text)
    requires Inv(g, d, fds, nodes) && Clean(PathOf(a)) && Clean(PathOf(b)) && Reach(g, d, nodes, PathOf(a)).Some?
    ensures Reach(g, d, nodes, PathOf(a)) == Reach(g, d, nodes, PathOf(b)) <==> PathOf(a) == PathOf(b)
  {
    hide Inv, Reach, Usable;
    if Reach(g, d, nodes, PathOf(a)) == Reach(g, d, nodes, PathOf(b)) {
      PathsUnique(g, d, fds, nodes, PathOf(a), PathOf(b));
    }
  }

  // ---- the leaf ----

  /** Where the text behind the last slash starts. */
  function LeafStart(s: Text): (i: nat)
    ensures i <= |s| && SLASH !in s[i..] && (i > 0 ==> s[i - 1] == SLASH)
  {
    if s == [] || s[|s| - 1] == SLASH then |s|
    else
      var i := LeafStart(s[..|s| - 1]);
      assert s[i..] == s[..|s| - 1][i..] + [s[|s| - 1]];
      i
  }

  /** What opening looks up to learn where the entry is: the text behind the last slash, cut to a component. */
  function Leaf(s: Text): Text {
    var t := s[LeafStart(s)..];
    if |t| <= COMP_MAX then t else t[..COMP_MAX]
  }

  lemma NoSlashBehind(a: Text, c: Text, i: nat)
    requires SLASH !in c && (a == [] || a[|a| - 1] == SLASH) && i <= |a + c|
    requires SLASH !in (a + c)[i..] && (i > 0 ==> (a + c)[i - 1] == SLASH)
    ensures i == |a|
  {
    var s := a + c;
    assert a != [] ==> s[|a| - 1] == SLASH;
    forall k | i <= k < |s| ensures s[k] != SLASH {
      NotBehind(s, i, k, SLASH);
    }
    forall k | 0 <= k < |c| ensures c[k] != SLASH {
      NotBehind(c, 0, k, SLASH);
    }
    assert forall k :: |a| <= k < |s| ==> s[k] == c[k - |a|];
  }

  lemma NotBehind(s: Text, i: nat, k: nat, x: byte)
    requires i <= k < |s| && x !in s[i..]
    ensures s[k] != x
  {
    assert s[i..][k - i] == s[k];
  }

  /** Whatever is in front of it, the leaf is the first characters behind the last slash, as many as a component has. */
  lemma LeafCut(a: Text, c: Text)
    requires SLASH !in c && (a == [] || a[|a| - 1] == SLASH)
    ensures Leaf(a + c) <= c && |Leaf(a + c)| == if |c| < COMP_MAX then |c| else COMP_MAX
  {
    hide LeafStart;
    NoSlashBehind(a, c, LeafStart(a + c));
    assert (a + c)[|a|..] == c;
  }

  /** The last component, if there is text behind the last slash and it fits. */
  lemma LeafIsLast(s: Text)
    requires 0 < |s| - LeafStart(s) <= COMP_MAX
    ensures |Parts(s)| > 0 && Leaf(s) == Parts(s)[|Parts(s)| - 1]
  {
    hide Parts;
    var i := LeafStart(s);
    OnePart(s[i..]);
    if i == 0 {
      assert s[0..] == s;
    } else {
      assert s == s[..i - 1] + [SLASH] + s[i..];
      PartsJoin(s[..i - 1], s[i..]);
    }
  }

  /** The text behind the last slash is the same with and without the volume's name, wherever there is a component. */
  lemma LeafInside(path: Text)
    requires Parts(Inside(path)) != []
    ensures |path| - LeafStart(path) == |Inside(path)| - LeafStart(Inside(path)) && Leaf(path) == Leaf(Inside(path))
  {
    hide Parts;
    if path == DISK {
      NoParts([], 0);
    } else if Inside(path) != path {
      assert path == DISK + path[5..] && path[5] == path[..6][5];
      LeafBehind(DISK, path[5..]);
    }
  }

  lemma {:induction false} LeafBehind(a: Text, b: Text)
    requires SLASH in b
    ensures LeafStart(a + b) == |a| + LeafStart(b)
    decreases |b|
  {
    var s := a + b;
    if b[|b| - 1] != SLASH {
      assert s[..|s| - 1] == a + b[..|b| - 1];
      assert b == b[..|b| - 1] + [b[|b| - 1]];
      LeafBehind(a, b[..|b| - 1]);
    }
  }

  /** The name by which a file that is there is looked up again; none if there is no text behind the last slash. */
  function LeafName(path: Text): Option<seq<byte>> { if Leaf(path) == [] then None else Some(Packed(Leaf(path))) }

  /** It is found by its own name if text that fits a component follows the last slash. */
  lemma LeafFits(path: Text)
    requires PathOf(path) != [] && 0 < |path| - LeafStart(path) <= COMP_MAX
    ensures LeafName(path) == Some(PathOf(path)[|PathOf(path)| - 1])
  {
    hide Parts, Packed;
    var s := Inside(path);
    LeafInside(path);
    LeafIsLast(s);
  }

  /** It is not looked up by any name exactly if the text ends with a slash. */
  lemma LeafLost(path: Text)
    requires path != []
    ensures LeafName(path) == None <==> path[|path| - 1] == SLASH
  {
    hide Packed;
    var i := LeafStart(path);
    if path[|path| - 1] != SLASH {
      assert i < |path|;
    }
  }

  /** The file at the path and the one it could be mistaken for can be shared. */
  ghost predicate AllSharable(g: Geometry, d: Disk, nodes: Nodes, fds: seq<Fd>, text: Text, write: bool) {
    var path, leaf := PathOf(text), LeafName(text);
    && (forall o :: Reach(g, d, nodes, path) == Some(o) ==> Sharable(fds, o, write))
    && (path != [] && leaf.Some? ==>
          forall o :: Reach(g, d, nodes, path[..|path| - 1] + [leaf.value]) == Some(o) ==> Sharable(fds, o, write))
  }

  /** Opens what a text stands for. */
  method OpenText(v: Volume, text: Text, flags: Flags) returns (r: int)
    requires v.Valid() && Clean(PathOf(text)) && (LeafName(text).Some? ==> Usable(LeafName(text).value))
    requires AllSharable(v.g, v.disk, v.nodes, v.fdt[..], text, flags.write)
    modifies v`disk, v`nextFree, v`nodes, v.secbuf, v.fdt
    ensures var path := PathOf(text);
      if path == []
        then v.disk == old(v.disk) && v.nodes == old(v.nodes) && RootOpened(old(v.fdt[..]), v.fdt[..], text, flags, r)
      else LeafOpened(v.g, old(v.disk), old(v.nodes), old(v.fdt[..]), v.disk, v.nodes, v.fdt[..], path, LeafName(text),
                      flags, r)
    ensures var path := PathOf(text);
      v.Valid() <==> !(path != [] && Second(v.g, old(v.disk), old(v.nodes), path, LeafName(text)) == Nothing && r >= 0)
    ensures var path := PathOf(text);
      path != [] && FileAt(v.g, old(v.disk), old(v.nodes), path).Some? && r >= 0 ==>
        && 0 <= r - FD_BASE < v.fdt.Length
        && (OpenOn(v.fdt[r - FD_BASE], Reach(v.g, old(v.disk), old(v.nodes), path).value) <==>
              LeafName(text) == Some(path[|path| - 1]))
  {
    hide Inv, Parts, Packed, Usable, Opened, Reach, FileAt, Second, LeafOpened, OpenOn, LeafStart, NoFd, Fresh;
    var path := Split(text);
    if path == [] {
      r := v.OpenRoot(flags, text == DISK);
      return;
    }
    var leaf := None;
    if Leaf(text) != [] {
      var name := Name83(Leaf(text));
      leaf := Some(name);
    }
    r := OpenPath(v, path, leaf, flags);
  }

  ghost predicate RootOpened(fds: seq<Fd>, fds': seq<Fd>, text: Text, flags: Flags, r: int) {
    && (r == ERR_ISDIR <==> !flags.dir && text != DISK) && (r == ERR_NOSPC <==> r != ERR_ISDIR && NoFd(fds))
    && (if r >= 0 then Fresh(fds, fds', r, flags, true, Root) else r in {ERR_ISDIR, ERR_NOSPC} && fds' == fds)
  }
}
