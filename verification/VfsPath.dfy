/** Path normalisation of the virtual file system: a fold over components with `.` and `..`. */
module VfsPath {

  const NAME_MAX: nat := 48
  const MAX_PARTS: nat := 32

  /** Where the component that begins at `i` ends. */
  function CompEnd(s: string, i: nat): (e: nat)
    requires i <= |s|
    ensures i <= e <= |s| && (forall k :: i <= k < e ==> s[k] != '/') && (e < |s| ==> s[e] == '/')
    decreases |s| - i
  {
    if i < |s| && s[i] != '/' then CompEnd(s, i + 1) else i
  }

  /** The text behind leading slashes. */
  function SkipSlashes(s: string, i: nat): (e: nat)
    requires i <= |s|
    ensures i <= e <= |s| && (forall k :: i <= k < e ==> s[k] == '/') && (e < |s| ==> s[e] != '/')
    decreases |s| - i
  {
    if i < |s| && s[i] == '/' then SkipSlashes(s, i + 1) else i
  }

  /** The components of a path, empty ones left out. */
  function Comps(s: string): (cs: seq<string>)
    ensures forall i :: 0 <= i < |cs| ==> cs[i] != [] && '/' !in cs[i]
    decreases |s|
  {
    var b := SkipSlashes(s, 0);
    if b == |s| then []
    else
      var e := CompEnd(s, b);
      [s[b..e]] + Comps(s[e..])
  }

  /** One component: `.` stays, `..` goes up if there is somewhere to go up from, a name goes down. */
  function Into(stack: seq<string>, c: string): seq<string> {
    if c == "." then stack
    else if c == ".." then (if stack == [] then [] else stack[..|stack| - 1])
    else stack + [c]
  }

  function Fold(stack: seq<string>, cs: seq<string>): seq<string>
    decreases |cs|
  {
    if cs == [] then stack else Fold(Into(stack, cs[0]), cs[1..])
  }

  /** Components behind slashes. */
  function Joined(parts: seq<string>): string {
    if parts == [] then [] else Joined(parts[..|parts| - 1]) + "/" + parts[|parts| - 1]
  }

  /** The normal form of a path. */
  function Norm(s: string): string { var parts := Fold([], Comps(s)); if parts == [] then "/" else Joined(parts) }

  /** Names that stay what they are. */
  ghost predicate Names(parts: seq<string>) {
    forall i :: 0 <= i < |parts| ==> parts[i] != [] && '/' !in parts[i] && parts[i] != "." && parts[i] != ".."
  }

  // ---- splitting ----

  lemma {:induction false} EndAt(s: string, i: nat, e: nat)
    requires i <= e <= |s| && (forall k :: i <= k < e ==> s[k] != '/') && (e < |s| ==> s[e] == '/')
    ensures CompEnd(s, i) == e
    decreases e - i
  {
    if i < e {
      EndAt(s, i + 1, e);
    }
  }

  /** A slash in front changes nothing. */
  lemma LeadingSlash(s: string)
    ensures Comps("/" + s) == Comps(s)
  {
    hide Comps;
    assert ("/" + s)[1..] == s;
    BehindSlash("/" + s);
  }

  lemma BehindSlash(t: string)
    requires t != [] && t[0] == '/'
    ensures Comps(t) == Comps(t[1..])
  {
    hide Comps, CompEnd, SkipSlashes;
    var s := t[1..];
    SkipOne(t, 0);
    SlashStep(t, 0);
    CompsStep(s);
    CompsStep(t);
    var b := SkipSlashes(s, 0);
    if b < |s| {
      var e := CompEnd(s, b);
      assert forall k :: b <= k < |s| ==> t[k + 1] == s[k];
      EndAt(t, b + 1, e + 1);
      assert t[b + 1..e + 1] == s[b..e] && t[e + 1..] == s[e..];
    }
  }

  lemma CompsStep(s: string)
    ensures var b := SkipSlashes(s, 0);
      Comps(s) == if b == |s| then [] else [s[b..CompEnd(s, b)]] + Comps(s[CompEnd(s, b)..])
  {}

  lemma {:induction false} SkipOne(t: string, i: nat)
    requires i + 1 <= |t|
    ensures SkipSlashes(t, i + 1) == SkipSlashes(t[1..], i) + 1
    decreases |t| - i
  {
    if i + 1 < |t| && t[i + 1] == '/' {
      SkipOne(t, i + 1);
    }
  }

  /** A name in front of nothing or of a slash is the first component. */
  lemma CompsFirst(c: string, rest: string)
    requires c != [] && '/' !in c && (rest == [] || rest[0] == '/')
    ensures Comps(c + rest) == [c] + Comps(rest)
  {
    var s := c + rest;
    assert s[0] == c[0] && forall k :: 0 <= k < |c| ==> s[k] == c[k] && c[k] in c;
    EndAt(s, 0, |c|);
    assert s[0..|c|] == c && s[|c|..] == rest;
  }

  /** Two paths with a slash between them have the components of both. */
  lemma {:induction false} CompsConcat(a: string, b: string)
    ensures Comps(a + "/" + b) == Comps(a) + Comps(b)
    decreases |a|
  {
    if a == [] {
      assert a + "/" + b == "/" + b;
      LeadingSlash(b);
    } else if a[0] == '/' {
      var t := a[1..];
      assert a == "/" + t && a + "/" + b == "/" + (t + "/" + b);
      LeadingSlash(t);
      LeadingSlash(t + "/" + b);
      CompsConcat(t, b);
    } else {
      var e := CompEnd(a, 0);
      var c, t := a[..e], a[e..];
      assert a == c + t && a + "/" + b == c + (t + "/" + b);
      assert '/' !in c;
      CompsFirst(c, t);
      CompsFirst(c, t + "/" + b);
      CompsConcat(t, b);
      assert [c] + (Comps(t) + Comps(b)) == [c] + Comps(t) + Comps(b);
    }
  }

  /** Joining names and splitting gives the names. */
  lemma {:induction false} CompsJoined(parts: seq<string>)
    requires Names(parts)
    ensures Comps(Joined(parts)) == parts
    decreases |parts|
  {
    hide Comps;
    NoComps([]);
    if parts != [] {
      var front, last := parts[..|parts| - 1], parts[|parts| - 1];
      CompsJoined(front);
      CompsConcat(Joined(front), last);
      CompsFirst(last, []);
      assert last + [] == last;
      assert front + [last] == parts;
    }
  }

  // ---- folding ----

  lemma {:induction false} FoldConcat(stack: seq<string>, a: seq<string>, b: seq<string>)
    ensures Fold(stack, a + b) == Fold(Fold(stack, a), b)
    decreases |a|
  {
    if a == [] {
      assert a + b == b;
    } else {
      assert (a + b)[0] == a[0] && (a + b)[1..] == a[1..] + b;
      FoldConcat(Into(stack, a[0]), a[1..], b);
    }
  }

  lemma {:induction false} FoldNames(stack: seq<string>, parts: seq<string>)
    requires Names(parts)
    ensures Fold(stack, parts) == stack + parts
    decreases |parts|
  {
    if parts != [] {
      FoldNames(stack + [parts[0]], parts[1..]);
      assert stack + [parts[0]] + parts[1..] == stack + parts;
    }
  }

  lemma {:induction false} FoldGivesNames(stack: seq<string>, cs: seq<string>)
    requires Names(stack) && forall i :: 0 <= i < |cs| ==> cs[i] != [] && '/' !in cs[i]
    ensures Names(Fold(stack, cs)) && |Fold(stack, cs)| <= |stack| + |cs|
    decreases |cs|
  {
    if cs != [] {
      FoldGivesNames(Into(stack, cs[0]), cs[1..]);
    }
  }

  lemma NormComps(s: string)
    ensures Comps(Norm(s)) == Fold([], Comps(s)) && Names(Fold([], Comps(s)))
  {
    FoldGivesNames([], Comps(s));
    CompsJoined(Fold([], Comps(s)));
  }

  /** Normalising twice is normalising once. */
  lemma NormTwice(s: string)
    ensures Norm(Norm(s)) == Norm(s)
  {
    NormComps(s);
    FoldNames([], Fold([], Comps(s)));
    assert [] + Fold([], Comps(s)) == Fold([], Comps(s));
  }

  /** The part in front of a slash may be normalised first. */
  lemma NormJoin(a: string, b: string)
    ensures Norm(Norm(a) + "/" + b) == Norm(a + "/" + b)
  {
    NormComps(a);
    CompsConcat(Norm(a), b);
    CompsConcat(a, b);
    var f := Fold([], Comps(a));
    FoldNames([], f);
    FoldConcat([], f, Comps(b));
    FoldConcat([], Comps(a), Comps(b));
    assert [] + f == f;
  }

  // ---- the dot names ----

  ghost predicate Name(c: string) { c != [] && '/' !in c && c != "." && c != ".." }

  /** A path of names alone keeps them. */
  lemma NamesKept(s: string)
    requires Names(Comps(s))
    ensures Norm(s) == (if Comps(s) == [] then "/" else Joined(Comps(s))) && Comps(Norm(s)) == Comps(s)
  {
    hide Comps, Joined;
    NormComps(s);
    FoldNames([], Comps(s));
    assert [] + Comps(s) == Comps(s);
  }

  /** What one more component does to a path. */
  lemma OneMore(a: string, c: string)
    requires c != [] && '/' !in c
    ensures Fold([], Comps(a + "/" + c)) == Into(Fold([], Comps(a)), c)
  {
    hide Into, Comps;
    NoComps([]);
    CompsFirst(c, []);
    assert c + [] == c && [c] + [] == [c];
    CompsConcat(a, c);
    FoldConcat([], Comps(a), [c]);
    FoldOne(Fold([], Comps(a)), c, []);
    FoldNothing(Into(Fold([], Comps(a)), c));
  }

  lemma FoldNothing(stack: seq<string>)
    ensures Fold(stack, []) == stack
  {}

  /** A name goes down: the components are those in front of it, and it. */
  lemma NormDown(a: string, c: string)
    requires Name(c)
    ensures Comps(Norm(a + "/" + c)) == Comps(Norm(a)) + [c]
  {
    hide Comps, Fold;
    NormComps(a);
    NormComps(a + "/" + c);
    OneMore(a, c);
  }

  /** ".." goes up, and stays at the root. */
  lemma NormUp(a: string)
    ensures var cs := Comps(Norm(a)); Comps(Norm(a + "/..")) == if cs == [] then [] else cs[..|cs| - 1]
  {
    hide Comps, Fold;
    NormComps(a);
    NormComps(a + "/..");
    OneMore(a, "..");
    assert a + "/" + ".." == a + "/..";
  }

  /** Paths with the same components have the same normal form. */
  lemma SameNorm(a: string, b: string)
    requires Comps(Norm(a)) == Comps(Norm(b))
    ensures Norm(a) == Norm(b)
  {
    hide Comps, Fold;
    NormComps(a);
    NormComps(b);
  }

  /** A name and ".." behind it are nothing, and neither is ".": at the end of a path ... */
  lemma DotsAtEnd(a: string, c: string)
    requires Name(c)
    ensures Norm(a + "/" + c + "/..") == Norm(a) && Norm(a + "/.") == Norm(a) && Norm("/..") == "/"
  {
    hide Comps, Fold, Norm;
    NormDown(a, c);
    NormUp(a + "/" + c);
    SameNorm(a + "/" + c + "/..", a);
    NormComps(a);
    NormComps(a + "/.");
    OneMore(a, ".");
    assert a + "/" + "." == a + "/.";
    SameNorm(a + "/.", a);
    NormUp([]);
    assert [] + "/.." == "/..";
    EmptyNorm();
    SameNorm("/..", "");
  }

  lemma EmptyNorm()
    ensures Norm("") == "/" && Comps("/") == []
  {
    NoComps("");
    LeadingSlash("");
  }

  /** ... and anywhere in it. */
  lemma DotsInside(a: string, c: string, b: string)
    requires Name(c)
    ensures Norm(a + "/" + c + "/../" + b) == Norm(a + "/" + b) && Norm(a + "/./" + b) == Norm(a + "/" + b)
  {
    hide Norm, Comps;
    DotsAtEnd(a, c);
    NormJoin(a, b);
    NormJoin(a + "/" + c + "/..", b);
    NormJoin(a + "/.", b);
    assert a + "/" + c + "/.." + "/" + b == a + "/" + c + "/../" + b;
    assert a + "/." + "/" + b == a + "/./" + b;
  }

  // ---- the loops ----

  ghost predicate Short(cs: seq<string>) { forall k :: 0 <= k < |cs| ==> |cs[k]| < NAME_MAX }

  /**
   * Paths the fixed buffers have room for: no component too long, not too many of them, and a normal form shorter than
   * `n`.
   */
  ghost predicate Fits(s: string, n: nat) {
    Short(Comps(s)) && |Comps(s)| <= MAX_PARTS && |Norm(s)| < n
  }

  /** Where reading a component stops: at its end, or when the buffer for it is full. */
  function ChunkEnd(s: string, i: nat): (e: nat)
    requires i <= |s|
    ensures i <= e <= CompEnd(s, i) && e - i < NAME_MAX && (e < CompEnd(s, i) ==> e - i == NAME_MAX - 1)
  {
    if CompEnd(s, i) - i < NAME_MAX then CompEnd(s, i) else i + NAME_MAX - 1
  }

  /** The components read from `i` on: long ones cut into several, and no more once there are 32. */
  function Taken(s: string, i: nat, stack: seq<string>): seq<string>
    requires i <= |s|
    decreases |s| - i
  {
    if i == |s| || |stack| >= MAX_PARTS then stack
    else
      var e := ChunkEnd(s, i);
      Taken(s, SkipSlashes(s, e), if e == i then stack else Into(stack, s[i..e]))
  }

  /** Components behind slashes as far as there is room for whole ones. */
  function Written(out: string, parts: seq<string>, n: nat): string
    decreases |parts|
  {
    if parts == [] || |out| + 1 >= n then out
    else if |out| + 1 + |parts[0]| >= n then out + "/"
    else Written(out + "/" + parts[0], parts[1..], n)
  }

  /** What normalising gives in buffers of fixed size, for any path. */
  function Buffered(s: string, n: nat): string {
    var parts := if s == [] then [] else Taken(s, if s[0] == '/' then 1 else 0, []);
    if parts == [] then "/" else Written([], parts, n)
  }

  /** Normalises a path into a buffer of `n` characters. */
  method Normalize(s: string, n: nat) returns (out: string)
    requires n > 1
    ensures out == Buffered(s, n)
  {
    hide CompEnd, SkipSlashes, Taken, Comps, Written;
    if s == [] {
      return "/";
    }
    var parts: seq<string> := [];
    var i := if s[0] == '/' then 1 else 0;
    ghost var start := i;
    assert i <= |s|;
    while i < |s| && |parts| < MAX_PARTS
      invariant i <= |s| && Taken(s, start, []) == Taken(s, i, parts)
      decreases |s| - i
    {
      ghost var i0, stack := i, parts;
      var c := [];
      while i < |s| && s[i] != '/' && |c| + 1 < NAME_MAX
        invariant i0 <= i <= ChunkEnd(s, i0) && c == s[i0..i]
        decreases |s| - i
      {
        InComp(s, i0, i);
        c := c + [s[i]];
        i := i + 1;
      }
      ghost var e := i;
      if i < |s| {
        InComp(s, i0, i);
      }
      assert e == ChunkEnd(s, i0);
      while i < |s| && s[i] == '/'
        invariant e <= i <= |s| && SkipSlashes(s, i) == SkipSlashes(s, e)
        decreases |s| - i
      {
        SlashStep(s, i);
        i := i + 1;
      }
      SlashEnd(s, i);
      assert c == s[i0..e] && (e == i0 <==> c == []) && i == SkipSlashes(s, e);
      TakenStep(s, i0, parts);
      if c == [] || c == "." {
        continue;
      }
      if c == ".." {
        if |parts| > 0 {
          parts := parts[..|parts| - 1];
        }
        continue;
      }
      parts := parts + [c];
    }
    TakenEnd(s, i, parts);
    if parts == [] {
      return "/";
    }
    out := JoinParts(parts, n);
  }

  lemma TakenStep(s: string, i: nat, stack: seq<string>)
    requires i < |s| && |stack| < MAX_PARTS
    ensures var e := ChunkEnd(s, i);
      && SkipSlashes(s, e) > i
      && Taken(s, i, stack) == Taken(s, SkipSlashes(s, e), if e == i then stack else Into(stack, s[i..e]))
  {}

  lemma TakenEnd(s: string, i: nat, stack: seq<string>)
    requires i <= |s| && (i == |s| || |stack| >= MAX_PARTS)
    ensures Taken(s, i, stack) == stack
  {}

  lemma SlashStep(s: string, i: nat)
    requires i < |s| && s[i] == '/'
    ensures SkipSlashes(s, i + 1) == SkipSlashes(s, i)
  {}

  lemma SlashEnd(s: string, i: nat)
    requires i == |s| || (i < |s| && s[i] != '/')
    ensures SkipSlashes(s, i) == i
  {}

  /** What the characters tell about where a component ends. */
  lemma {:induction false} InComp(s: string, i: nat, k: nat)
    requires i <= k < |s| && k <= CompEnd(s, i)
    ensures s[k] == '/' <==> k == CompEnd(s, i)
  {}

  method JoinParts(parts: seq<string>, n: nat) returns (out: string)
    ensures out == Written([], parts, n)
  {
    out := [];
    assert parts[0..] == parts;
    var i := 0;
    while i < |parts| && |out| + 1 < n
      invariant i <= |parts| && Written(out, parts[i..], n) == Written([], parts, n)
    {
      assert parts[i..][0] == parts[i] && parts[i..][1..] == parts[i + 1..];
      out := out + "/";
      if |out| + |parts[i]| >= n {
        return;
      }
      out := out + parts[i];
      i := i + 1;
    }
  }

  // ---- what the buffers hold ----

  lemma {:induction false} TakenAll(s: string, i: nat, stack: seq<string>)
    requires i <= |s| && Short(Comps(s[i..])) && |stack| + |Comps(s[i..])| <= MAX_PARTS
    ensures Taken(s, i, stack) == Fold(stack, Comps(s[i..]))
    decreases |s| - i
  {
    hide Comps, Into, Short;
    if i == |s| {
      NoComps(s[i..]);
    } else if |stack| >= MAX_PARTS {
      assert Comps(s[i..]) == [];
    } else {
      var e := ChunkEnd(s, i);
      var i' := SkipSlashes(s, e);
      var c := s[i..e];
      NextPart(s, i, e, i', c, stack);
      IntoLonger(stack, c);
      TakenAll(s, i', if c == [] then stack else Into(stack, c));
    }
  }

  lemma NoComps(s: string)
    requires s == []
    ensures Comps(s) == []
  {}

  lemma IntoLonger(stack: seq<string>, c: string)
    ensures |Into(stack, c)| <= |stack| + 1
  {}

  lemma {:induction false} JoinedFirst(parts: seq<string>)
    requires parts != []
    ensures Joined(parts) == "/" + parts[0] + Joined(parts[1..])
    decreases |parts|
  {
    hide Joined;
    var n := |parts| - 1;
    JoinedLast(parts);
    if n > 0 {
      JoinedFirst(parts[..n]);
      JoinedLast(parts[1..]);
      var middle := parts[..n][1..];
      assert middle == parts[1..][..n - 1];
      Regroup("/" + parts[0], Joined(middle), "/" + parts[n]);
    } else {
      JoinedNothing();
      assert parts[..0] == [] && parts[1..] == [];
    }
  }

  lemma JoinedLast(parts: seq<string>)
    requires parts != []
    ensures Joined(parts) == Joined(parts[..|parts| - 1]) + ("/" + parts[|parts| - 1])
  {
    Regroup(Joined(parts[..|parts| - 1]), "/", parts[|parts| - 1]);
  }

  lemma Regroup(a: string, b: string, c: string)
    ensures a + b + c == a + (b + c)
  {}

  lemma {:induction false} WrittenAll(out: string, parts: seq<string>, n: nat)
    requires |out| + |Joined(parts)| < n
    ensures Written(out, parts, n) == out + Joined(parts)
    decreases |parts|
  {
    if parts != [] {
      JoinedFirst(parts);
      WrittenAll(out + "/" + parts[0], parts[1..], n);
    }
  }

  /** A path that fits comes out in its normal form. */
  lemma FittingNormalized(s: string, n: nat)
    requires Fits(s, n)
    ensures Buffered(s, n) == Norm(s)
  {
    hide Taken, Written, Joined, Comps, Fold;
    if s == [] {
      NoComps(s);
      FoldNothing([]);
    } else {
      FromStart(s);
      TakenAll(s, if s[0] == '/' then 1 else 0, []);
      var parts := Fold([], Comps(s));
      if parts != [] {
        WrittenAll([], parts, n);
      }
    }
  }

  lemma FromStart(s: string)
    requires s != []
    ensures Comps(s) == Comps(s[if s[0] == '/' then 1 else 0..])
  {
    if s[0] == '/' {
      assert s == "/" + s[1..];
      LeadingSlash(s[1..]);
    } else {
      assert s[0..] == s;
    }
  }

  /** In the buffers too, where the paths fit. */
  lemma BufferedDots(a: string, c: string, b: string, n: nat)
    requires Name(c) && Fits(a + "/" + c + "/../" + b, n) && Fits(a + "/" + b, n)
    ensures Buffered(a + "/" + c + "/../" + b, n) == Buffered(a + "/" + b, n)
  {
    hide Norm, Buffered, Comps;
    DotsInside(a, c, b);
    FittingNormalized(a + "/" + c + "/../" + b, n);
    FittingNormalized(a + "/" + b, n);
  }

  lemma {:induction false} TakenNames(s: string, i: nat, stack: seq<string>)
    requires i <= |s| && Names(stack) && Short(stack) && |stack| <= MAX_PARTS
    ensures Names(Taken(s, i, stack)) && Short(Taken(s, i, stack)) && |Taken(s, i, stack)| <= MAX_PARTS
    decreases |s| - i
  {
    if i < |s| && |stack| < MAX_PARTS {
      var e := ChunkEnd(s, i);
      TakenNames(s, SkipSlashes(s, e), if e == i then stack else Into(stack, s[i..e]));
    }
  }

  /** What has been written is some of the components whole, with at most a slash behind them. */
  lemma {:induction false} WrittenShape(out: string, parts: seq<string>, n: nat) returns (k: nat, tail: bool)
    requires |out| < n
    ensures k <= |parts| && Written(out, parts, n) == out + Joined(parts[..k]) + (if tail then "/" else "")
    ensures |Written(out, parts, n)| < n && (tail || k > 0 || parts == [] || |out| + 1 >= n)
    decreases |parts|
  {
    if parts == [] || |out| + 1 >= n {
      k, tail := 0, false;
    } else if |out| + 1 + |parts[0]| >= n {
      k, tail := 0, true;
    } else {
      hide Joined;
      k, tail := WrittenShape(out + "/" + parts[0], parts[1..], n);
      k := k + 1;
      JoinedFirst(parts[..k]);
      var rest := Joined(parts[1..][..k - 1]);
      assert parts[..k][1..] == parts[1..][..k - 1];
      Regroup(out, "/", parts[0]);
      Regroup(out, "/" + parts[0], rest);
    }
  }

  /** A text of whole components behind slashes, with a slash at the end if that is the root or if there was no room. */
  ghost predicate Shape(out: string, parts: seq<string>, tail: bool, n: nat) {
    && out == Joined(parts) + (if tail then "/" else "") && |out| < n
    && Names(parts) && Short(parts) && |parts| <= MAX_PARTS && (tail || parts != [])
  }

  lemma BufferedShape(s: string, n: nat) returns (parts: seq<string>, tail: bool)
    requires n > 1
    ensures Shape(Buffered(s, n), parts, tail, n) && Comps(Buffered(s, n)) == parts
  {
    hide Taken, Written, Comps, Joined, Names, Short;
    var all := AllTaken(s);
    if all == [] {
      parts, tail := [], true;
      JoinedNothing();
      NamesNone();
    } else {
      var k;
      k, tail := WrittenShape([], all, n);
      parts := all[..k];
      NamesFront(all, k);
      assert [] + Joined(parts) == Joined(parts);
    }
    ShapeComps(parts, tail);
  }

  /** What the buffers hold fits them. */
  lemma BufferedFits(s: string, n: nat) returns (parts: seq<string>, tail: bool)
    requires n > 1
    ensures Shape(Buffered(s, n), parts, tail, n) && Fits(Buffered(s, n), n)
    ensures Norm(Buffered(s, n)) == if parts == [] then "/" else Joined(parts)
  {
    hide Buffered, Comps, Joined, Fold;
    parts, tail := BufferedShape(s, n);
    FoldNames([], parts);
    assert [] + parts == parts;
  }

  /** Normalising twice is normalising once unless there was room for a slash but not for the component behind it. */
  lemma BufferedTwice(s: string, n: nat)
    requires n > 1
    ensures var out := Buffered(s, n); out != [] && (Buffered(out, n) == out <==> out == "/" || out[|out| - 1] != '/')
  {
    hide Buffered, Comps, Norm, Fold, Fits;
    var parts, tail := BufferedFits(s, n);
    FittingNormalized(Buffered(s, n), n);
    if parts == [] {
      JoinedNothing();
    } else {
      JoinedEnd(parts);
    }
  }

  lemma JoinedEnd(parts: seq<string>)
    requires Names(parts) && parts != []
    ensures |Joined(parts)| > 1 && Joined(parts)[|Joined(parts)| - 1] != '/'
  {
    var last := parts[|parts| - 1];
    assert last[|last| - 1] in last;
  }

  lemma {:induction false} FoldShort(stack: seq<string>, cs: seq<string>)
    requires Short(stack) && Short(cs)
    ensures Short(Fold(stack, cs))
    decreases |cs|
  {
    if cs != [] {
      FoldShort(Into(stack, cs[0]), cs[1..]);
    }
  }

  /** The part in front of a slash may be normalised first, where both paths fit. */
  lemma BufferedJoin(a: string, b: string, n: nat)
    requires Fits(a, n) && Fits(a + "/" + b, n)
    ensures Buffered(Buffered(a, n) + "/" + b, n) == Buffered(a + "/" + b, n)
  {
    hide Buffered, Comps, Fold;
    FittingNormalized(a, n);
    FittingNormalized(a + "/" + b, n);
    NormJoin(a, b);
    NormComps(a);
    CompsConcat(a, b);
    CompsConcat(Norm(a), b);
    FoldGivesNames([], Comps(a));
    FoldShort([], Comps(a));
    assert forall k :: 0 <= k < |Comps(b)| ==> Comps(b)[k] == (Comps(a) + Comps(b))[|Comps(a)| + k];
    FittingNormalized(Norm(a) + "/" + b, n);
  }

  lemma AllTaken(s: string) returns (all: seq<string>)
    ensures all == if s == [] then [] else Taken(s, if s[0] == '/' then 1 else 0, [])
    ensures Names(all) && Short(all) && |all| <= MAX_PARTS
  {
    all := [];
    if s != [] {
      all := Taken(s, if s[0] == '/' then 1 else 0, []);
      TakenNames(s, if s[0] == '/' then 1 else 0, []);
    }
  }

  lemma NamesNone()
    ensures Names([]) && Short([])
  {}

  lemma NamesFront(parts: seq<string>, k: nat)
    requires Names(parts) && Short(parts) && k <= |parts|
    ensures Names(parts[..k]) && Short(parts[..k])
  {}

  lemma ShapeComps(parts: seq<string>, tail: bool)
    requires Names(parts)
    ensures Comps(Joined(parts) + (if tail then "/" else "")) == parts
  {
    CompsJoined(parts);
    if tail {
      CompsConcat(Joined(parts), []);
      NoComps([]);
      assert Joined(parts) + "/" + [] == Joined(parts) + "/";
    } else {
      assert Joined(parts) + "" == Joined(parts);
    }
  }

  lemma {:induction false} NoSlashes(s: string, e: nat, i: nat)
    requires e <= i <= |s| && forall k :: e <= k < i ==> s[k] == '/'
    ensures Comps(s[e..]) == Comps(s[i..])
    decreases i - e
  {
    if e < i {
      assert s[e..] == "/" + s[e + 1..];
      LeadingSlash(s[e + 1..]);
      NoSlashes(s, e + 1, i);
    }
  }

  /** One round of the loop: the component read, if any, and the slashes behind it. */
  lemma NextPart(s: string, i0: nat, e: nat, i: nat, c: string, stack: seq<string>)
    requires i0 <= e <= i <= |s| && i0 < |s| && c == s[i0..e] && '/' !in c && |c| < NAME_MAX
    requires e == |s| || s[e] == '/' || |c| + 1 == NAME_MAX
    requires i == SkipSlashes(s, e) && forall k :: e <= k < i ==> s[k] == '/'
    ensures i > i0
    ensures Short(Comps(s[i0..])) ==>
      && Comps(s[i0..]) == (if c == [] then [] else [c]) + Comps(s[i..]) && Short(Comps(s[i..]))
      && Fold(stack, Comps(s[i0..])) == Fold(if c == [] then stack else Into(stack, c), Comps(s[i..]))
  {
    hide Comps, Fold;
    assert c == [] ==> s[i0] == '/' && i0 == e;
    NoSlashes(s, e, i);
    AfterSlash(s, e, i);
    if c == [] {
      assert [] + Comps(s[i..]) == Comps(s[i..]);
    } else if Short(Comps(s[i0..])) {
      var t := s[i0..];
      assert t[..|c|] == c && t[|c|..] == s[e..];
      assert |c| < |t| ==> t[|c|] == s[e];
      WholeComp(t, |c|);
      FoldOne(stack, c, Comps(s[i..]));
      assert forall k :: 0 <= k < |Comps(s[i..])| ==> Comps(s[i..])[k] == Comps(t)[k + 1];
    }
  }

  lemma AfterSlash(s: string, e: nat, i: nat)
    requires e <= i <= |s| && i == SkipSlashes(s, e)
    ensures e < |s| && s[e] == '/' ==> i > e
  {
  }

  lemma FoldOne(stack: seq<string>, c: string, cs: seq<string>)
    ensures Fold(stack, [c] + cs) == Fold(Into(stack, c), cs)
  {
    assert ([c] + cs)[1..] == cs;
  }

  /** If no component is too long the one read is whole. */
  lemma WholeComp(t: string, n: nat)
    requires 0 < n <= |t| && n < NAME_MAX && '/' !in t[..n] && (n == |t| || t[n] == '/' || n + 1 == NAME_MAX)
    requires Short(Comps(t))
    ensures Comps(t) == [t[..n]] + Comps(t[n..])
  {
    var e := CompEnd(t, 0);
    assert t[0] == t[..n][0];
    assert Comps(t)[0] == t[0..e];
    assert forall k :: 0 <= k < n ==> t[k] == t[..n][k];
    EndAt(t, 0, n);
  }

  lemma JoinedNothing()
    ensures Joined([]) == []
  {
  }
}
