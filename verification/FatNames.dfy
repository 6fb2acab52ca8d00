/** 8.3 names: how the driver packs a path component into eleven bytes and reads it back. */
module FatNames {
  import opened Bytes
  import opened FatState

  type Text = seq<byte>

  const SPACE: byte := 0x20
  const PERIOD: byte := 0x2E

  function Upper(c: byte): byte { if 0x61 <= c <= 0x7A then c - 0x20 else c }

  function Lower(c: byte): byte { if 0x41 <= c <= 0x5A then c + 0x20 else c }

  function Uppers(s: Text): (r: Text)
    ensures |r| == |s|
  {
    seq(|s|, i requires 0 <= i < |s| => Upper(s[i]))
  }

  function Lowers(s: Text): (r: Text)
    ensures |r| == |s|
  {
    seq(|s|, i requires 0 <= i < |s| => Lower(s[i]))
  }

  /** `s` padded with spaces to `n` bytes. */
  function Pad(s: Text, n: nat): (r: Text)
    requires |s| <= n
    ensures |r| == n
  {
    s + seq(n - |s|, _ => SPACE)
  }

  function Min(a: nat, b: nat): nat { if a < b then a else b }

  /** Where the base of a component ends: at a period, at its end, or after eight characters. */
  function BaseEnd(s: Text, i: nat): (n: nat)
    requires i <= |s| && i <= 8
    ensures i <= n <= |s| && n <= 8
    ensures forall k :: i <= k < n ==> s[k] != PERIOD
    ensures n == |s| || n == 8 || s[n] == PERIOD
    decreases |s| - i
  {
    if i == |s| || s[i] == PERIOD || i == 8 then i else BaseEnd(s, i + 1)
  }

  /** The part behind the period, cut to three characters; nothing if the base did not end at a period. */
  function Ext(s: Text): (e: Text)
    ensures |e| <= 3
  {
    var n := BaseEnd(s, 0);
    if n < |s| && s[n] == PERIOD then s[n + 1..Min(|s|, n + 4)] else []
  }

  /** The eleven bytes of a component. */
  function Packed(s: Text): (r: Text)
    ensures |r| == 11
  {
    Pad(Uppers(s[..BaseEnd(s, 0)]), 8) + Pad(Uppers(Ext(s)), 3)
  }

  /** The text before the first space. */
  function Trim(s: Text): (r: Text)
    ensures |r| <= |s| && r <= s && SPACE !in r
    ensures r == s || s[|r|] == SPACE
  {
    if s == [] || s[0] == SPACE then [] else [s[0]] + Trim(s[1..])
  }

  /** The text of eleven bytes. */
  function Unpacked(e: Text): Text
    requires |e| == 11
  {
    Lowers(Trim(e[..8])) + if e[8] != SPACE then [PERIOD] + Lowers(Trim(e[8..])) else []
  }

  /** A component that fits: no spaces, at most eight characters before the period and one to three behind it. */
  predicate Fits83(s: Text) {
    var n := BaseEnd(s, 0);
    && SPACE !in s[..n]
    && (n == |s| || (s[n] == PERIOD && 1 <= |s| - n - 1 <= 3 && SPACE !in s[n + 1..]))
  }

  // ---- the driver's loops ----

  method Name83(src: Text) returns (out: Text)
    ensures out == Packed(src)
  {
    hide Upper, Uppers, Pad;
    var base, ext := new byte[8](_ => SPACE), new byte[3](_ => SPACE);
    var i, j := 0, 0;
    PadNothing(8);
    PadNothing(3);
    assert src[..0] == [] && base[..] == Pad([], 8) && ext[..] == Pad([], 3);
    while i < |src| && src[i] != PERIOD && j < 8
      invariant i == j <= |src| && j <= 8
      invariant BaseEnd(src, i) == BaseEnd(src, 0)
      invariant base[..] == Pad(Uppers(src[..i]), 8) && ext[..] == Pad([], 3)
    {
      PadStep(src, 0, j, 8);
      assert src[0..j] == src[..j] && src[0..j + 1] == src[..j + 1];
      base[j] := Upper(src[i]);
      i, j := i + 1, j + 1;
    }
    ghost var n := i;
    if i < |src| && src[i] == PERIOD {
      i, j := i + 1, 0;
      assert src[n + 1..i] == [];
      while i < |src| && j < 3
        invariant i == n + 1 + j <= |src| && j <= 3
        invariant base[..] == Pad(Uppers(src[..n]), 8) && ext[..] == Pad(Uppers(src[n + 1..i]), 3)
      {
        PadStep(src, n + 1, j, 3);
        ext[j] := Upper(src[i]);
        i, j := i + 1, j + 1;
      }
    }
    out := base[..] + ext[..];
  }

  lemma PadNothing(n: nat)
    ensures Pad(Uppers([]), n) == Pad([], n) == seq(n, _ => SPACE)
  {
  }

  lemma PadStep(s: Text, a: nat, j: nat, n: nat)
    requires a + j < |s| && j < n
    ensures Pad(Uppers(s[a..a + j]), n)[j := Upper(s[a + j])] == Pad(Uppers(s[a..a + j + 1]), n)
  {
  }

  /** Reads a name into a buffer of `n` bytes, the last of which ends the string. */
  method Decode83(e: Text, n: nat) returns (out: Text)
    requires |e| == 11
    ensures n >= 13 ==> out == Unpacked(e)
    ensures n > 0 ==> |out| < n
  {
    hide Lower, Lowers, Trim;
    out := [];
    var i := 0;
    assert Lowers(e[..0]) == [];
    while i < 8 && e[i] != SPACE
      invariant i <= 8 && SPACE !in e[..i] && |out| <= i && (n > 0 ==> |out| < n)
      invariant n >= 13 ==> out == Lowers(e[..i])
    {
      LowersStep(e, 0, i);
      assert e[0..i] == e[..i] && e[0..i + 1] == e[..i + 1];
      if |out| + 1 < n {
        out := out + [Lower(e[i])];
      }
      i := i + 1;
    }
    TrimAt(e[..8], i);
    assert e[..8][..i] == e[..i];
    assert n >= 13 ==> out == Lowers(Trim(e[..8]));
    if e[8] != SPACE {
      if |out| + 1 < n {
        out := out + [PERIOD];
      }
      ghost var lead := out;
      i := 8;
      assert e[8..8] == [] && Lowers([]) == [];
      while i < 11 && e[i] != SPACE
        invariant 8 <= i <= 11 && SPACE !in e[8..i] && |out| <= i + 1 && (n > 0 ==> |out| < n)
        invariant n >= 13 ==> out == lead + Lowers(e[8..i])
      {
        LowersStep(e, 8, i);
        if |out| + 1 < n {
          out := out + [Lower(e[i])];
        }
        i := i + 1;
      }
      TrimAt(e[8..], i - 8);
      assert e[8..i] == e[8..][..i - 8];
    }
  }

  lemma LowersStep(e: Text, a: nat, i: nat)
    requires a <= i < |e|
    ensures Lowers(e[a..i]) + [Lower(e[i])] == Lowers(e[a..i + 1])
    ensures SPACE !in e[a..i] && e[i] != SPACE ==> SPACE !in e[a..i + 1]
  {
    assert e[a..i + 1] == e[a..i] + [e[i]];
  }

  /** Trimming stops at the first space. */
  lemma {:induction false} TrimAt(s: Text, i: nat)
    requires i <= |s| && SPACE !in s[..i] && (i == |s| || s[i] == SPACE)
    ensures Trim(s) == s[..i]
  {
    if i > 0 {
      assert s[..i][0] == s[0] && s[1..][..i - 1] == s[..i][1..];
      TrimAt(s[1..], i - 1);
    }
  }

  // ---- the two are inverse ----

  lemma TrimPad(s: Text, n: nat)
    requires |s| <= n && SPACE !in s
    ensures Trim(Pad(s, n)) == s
  {
    assert Pad(s, n)[..|s|] == s;
    TrimAt(Pad(s, n), |s|);
  }

  lemma TrimPadShort(s: Text, n: nat)
    requires |s| <= n
    ensures |Trim(Pad(s, n))| <= |s| && (SPACE in s ==> |Trim(Pad(s, n))| < |s|)
  {
    var p := Pad(s, n);
    var t := Trim(p);
    hide Trim, Pad;
    assert forall i :: 0 <= i < |t| ==> t[i] == p[i] && t[i] in t;
    assert |s| < n ==> p[|s|] == SPACE by { PadAt(s, n); }
    if SPACE in s {
      var i :| 0 <= i < |s| && s[i] == SPACE;
      assert p[i] == SPACE by { PadAt(s, n); }
    }
  }

  lemma PadAt(s: Text, n: nat)
    requires |s| <= n
    ensures forall i :: 0 <= i < n ==> Pad(s, n)[i] == if i < |s| then s[i] else SPACE
  {
  }

  lemma UppersSpaces(s: Text)
    ensures SPACE in Uppers(s) <==> SPACE in s
    ensures Lowers(Uppers(s)) == Lowers(s)
  {
    if SPACE in s {
      var i :| 0 <= i < |s| && s[i] == SPACE;
      assert Uppers(s)[i] == SPACE;
    }
    if SPACE in Uppers(s) {
      var i :| 0 <= i < |s| && Uppers(s)[i] == SPACE;
      assert s[i] == SPACE;
    }
  }

  lemma UnpackedParts(base: Text, ext: Text)
    requires |base| <= 8 && |ext| <= 3
    ensures var p := Pad(base, 8) + Pad(ext, 3);
      Unpacked(p) == Lowers(Trim(Pad(base, 8))) + if ext != [] && ext[0] != SPACE
        then [PERIOD] + Lowers(Trim(Pad(ext, 3))) else []
  {
    var p := Pad(base, 8) + Pad(ext, 3);
    assert p[..8] == Pad(base, 8) && p[8..] == Pad(ext, 3) && p[8] == Pad(ext, 3)[0];
  }

  lemma FitsReadsBack(s: Text)
    requires Fits83(s)
    ensures Unpacked(Packed(s)) == Lowers(s)
  {
    hide Trim, Pad, BaseEnd, Unpacked, Ext, Lowers, Uppers;
    var n, ext := BaseEnd(s, 0), Ext(s);
    var base := s[..n];
    FitsParts(s);
    UppersSpaces(base);
    UppersSpaces(ext);
    TrimPad(Uppers(base), 8);
    TrimPad(Uppers(ext), 3);
    UnpackedParts(Uppers(base), Uppers(ext));
    assert ext != [] ==> Uppers(ext)[0] in Uppers(ext);
    LowersJoin(base, ext);
  }

  lemma FitsParts(s: Text)
    requires Fits83(s)
    ensures var n, ext := BaseEnd(s, 0), Ext(s);
      && SPACE !in s[..n] && SPACE !in ext
      && (if ext == [] then s == s[..n] else s == s[..n] + [PERIOD] + ext)
  {
    hide BaseEnd;
  }

  lemma LowersJoin(b: Text, x: Text)
    ensures Lowers(b + [PERIOD] + x) == Lowers(b) + [PERIOD] + Lowers(x)
  {
  }

  lemma OthersGetShorter(s: Text)
    requires !Fits83(s)
    ensures |Unpacked(Packed(s))| < |s|
  {
    hide Trim, Pad, BaseEnd, Unpacked, Ext, Lowers, Uppers;
    var n, ext := BaseEnd(s, 0), Ext(s);
    UppersSpaces(s[..n]);
    UppersSpaces(ext);
    TrimPadShort(Uppers(s[..n]), 8);
    TrimPadShort(Uppers(ext), 3);
    UnpackedParts(Uppers(s[..n]), Uppers(ext));
    MisfitParts(s);
    assert ext != [] && Uppers(ext)[0] == SPACE ==> SPACE in Uppers(ext);
  }

  lemma MisfitParts(s: Text)
    requires !Fits83(s)
    ensures var n, ext := BaseEnd(s, 0), Ext(s);
      if n < |s| && s[n] == PERIOD then
        n + 1 + |ext| <= |s| && (SPACE in s[..n] || SPACE in ext || ext == [] || n + 1 + |ext| < |s|)
      else ext == [] && (SPACE in s[..n] || n < |s|)
  {
    hide BaseEnd;
  }

  /** Reading back a packed component gives the component, in lower case, exactly when it fits the 8.3 form. */
  lemma PackedReadsBack(s: Text)
    ensures Unpacked(Packed(s)) == Lowers(s) <==> Fits83(s)
  {
    hide Packed, Unpacked, Fits83;
    if Fits83(s) {
      FitsReadsBack(s);
    } else {
      OthersGetShorter(s);
    }
  }

  /** Names as the driver stores them: upper case, padded with spaces, no period in the base. */
  predicate Stored(e: Text) {
    && |e| == 11 && (forall i :: 0 <= i < 11 ==> e[i] == Upper(e[i]))
    && e[..8] == Pad(Trim(e[..8]), 8) && PERIOD !in e[..8] && e[8..] == Pad(Trim(e[8..]), 3)
  }

  /** Packing the text of a stored name gives the stored name. */
  lemma UnpackedPacksBack(e: Text)
    requires Stored(e)
    ensures Packed(Unpacked(e)) == e
  {
    hide Trim, Pad, BaseEnd, Uppers, Lowers;
    var b, x, s := Trim(e[..8]), Trim(e[8..]), Unpacked(e);
    CasesBack(e[..8], b);
    CasesBack(e[8..], x);
    LowerPeriod();
    StoredExt(e);
    EndsAt(s, |b|);
    assert s[..|b|] == Lowers(b);
    assert Ext(s) == if e[8] == SPACE then [] else Lowers(x);
    assert e == e[..8] + e[8..];
  }

  lemma StoredExt(e: Text)
    requires |e| == 11
    ensures e[8] == SPACE <==> Trim(e[8..]) == []
    ensures var b, x, s := Trim(e[..8]), Trim(e[8..]), Unpacked(e);
      |s| == |b| + (if x == [] then 0 else 1 + |x|) && s[..|b|] == Lowers(b) &&
      (x != [] ==> s[|b|] == PERIOD && s[|b| + 1..] == Lowers(x))
  {
    assert e[8] == e[8..][0];
    FirstBytes(e[8..], Trim(e[8..]));
    hide Trim, Lowers;
  }

  lemma CasesBack(s: Text, t: Text)
    requires (forall i :: 0 <= i < |s| ==> s[i] == Upper(s[i])) && t <= s
    ensures Uppers(Lowers(t)) == t
    ensures forall i :: 0 <= i < |t| ==> Lowers(t)[i] == Lower(s[i])
  {
  }

  lemma EndsAt(s: Text, n: nat)
    requires n <= |s| && n <= 8 && (forall i :: 0 <= i < n ==> s[i] != PERIOD) && (n == |s| || s[n] == PERIOD)
    ensures BaseEnd(s, 0) == n
  {
  }

  /** A name reads as "." or ".." exactly when the driver takes it for one of a directory's own links. */
  lemma LinksReadAsDots(e: Text)
    requires |e| == 11
    ensures LinkName(e) <==> Unpacked(e) == [PERIOD] || Unpacked(e) == [PERIOD, PERIOD]
  {
    var b, x, u := Trim(e[..8]), Trim(e[8..]), Unpacked(e);
    FirstBytes(e[..8], b);
    FirstBytes(e[8..], x);
    assert e[8] == e[8..][0] && e[9] == e[8..][1];
    hide Trim, Lower;
    LowerPeriod();
    assert u == Lowers(b) + if e[8] != SPACE then [PERIOD] + Lowers(x) else [];
    assert |u| >= 1 ==> u[0] == if |b| >= 1 then Lower(b[0]) else PERIOD;
    assert |u| >= 2 && |b| >= 2 ==> u[1] == Lower(b[1]);
    assert |u| >= 2 && |b| == 0 ==> u[1] == Lower(x[0]);
  }

  /** The bytes in front of the first space, one by one. */
  lemma FirstBytes(s: Text, t: Text)
    requires |s| >= 3 && t == Trim(s)
    ensures |t| == 0 <==> s[0] == SPACE
    ensures |t| == 1 <==> s[0] != SPACE && s[1] == SPACE
    ensures |t| == 2 <==> s[0] != SPACE && s[1] != SPACE && s[2] == SPACE
    ensures forall i :: 0 <= i < |t| ==> t[i] == s[i]
  {
    hide Trim;
    assert forall i :: 0 <= i < |t| ==> t[i] == s[i] && t[i] in t;
  }

  lemma LowerPeriod()
    ensures forall c {:trigger Lower(c)} :: Lower(c) == PERIOD <==> c == PERIOD
  {
  }

  /**
   * A component packs to a name that reads as a link exactly when its base is empty or begins with a space and
   * a second period follows the first, ending the component or followed by a space.
   */
  lemma PackedLinks(s: Text)
    ensures var n, x := BaseEnd(s, 0), Ext(s);
      LinkName(Packed(s)) <==> (n == 0 || s[0] == SPACE) && x != [] && x[0] == PERIOD && (|x| == 1 || x[1] == SPACE)
  {
    hide BaseEnd, Ext, Pad;
    var n, x, p := BaseEnd(s, 0), Ext(s), Packed(s);
    PadAt(Uppers(s[..n]), 8);
    PadAt(Uppers(x), 3);
    assert p[0] == if n == 0 then SPACE else Upper(s[0]);
    assert p[8] == if x == [] then SPACE else Upper(x[0]);
    assert p[9] == if |x| < 2 then SPACE else Upper(x[1]);
  }
}
