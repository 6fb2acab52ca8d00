/** The initial ramdisk: the packer's records and the unpacker's walk over them. */
module Initrd {
  import opened Wrappers
  import opened Bytes

  const PATH_MAX: nat := 128
  const DIR_MARK: nat := 0xFFFF_FFFF
  const WRAP: nat := 0x1_0000_0000

  /** A file with its bytes, or a directory. */
  datatype Entry = Entry(path: seq<byte>, data: Option<seq<byte>>)

  /** Lengths the format has room for. */
  predicate Sized(e: Entry) { |e.path| < WRAP && (e.data.Some? ==> |e.data.value| < WRAP) }

  /** Of those, a path the unpacker takes, and data that is not taken for the directory mark. */
  predicate Packable(e: Entry) { Sized(e) && 0 < |e.path| < PATH_MAX && (e.data.Some? ==> |e.data.value| < DIR_MARK) }

  function Record(e: Entry): (r: seq<byte>)
    requires Sized(e)
    ensures |r| == 8 + |e.path| + if e.data.Some? then |e.data.value| else 0
  {
    Put32(|e.path|) + Put32(if e.data.Some? then |e.data.value| else DIR_MARK) + e.path + if e.data.Some?
      then e.data.value else []
  }

  ghost predicate AllSized(es: seq<Entry>) { forall i :: 0 <= i < |es| ==> Sized(es[i]) }

  ghost predicate AllPackable(es: seq<Entry>) { forall i :: 0 <= i < |es| ==> Packable(es[i]) }

  /** Records one after the other. */
  ghost function Records(es: seq<Entry>): (b: seq<byte>)
    requires AllSized(es)
  {
    if es == [] then [] else Record(es[0]) + Records(es[1..])
  }

  /** Packs entries; fails if a length does not fit its field. */
  method Pack(es: seq<Entry>) returns (blob: Option<seq<byte>>)
    ensures blob == if AllSized(es) then Some(Records(es)) else None
  {
    hide Record, Records, Put32;
    var b := [];
    assert es[0..] == es;
    for i := 0 to |es|
      invariant AllSized(es[..i]) && (AllSized(es) ==> b + Records(es[i..]) == Records(es))
    {
      var e := es[i];
      if |e.path| >= WRAP || (e.data.Some? && |e.data.value| >= WRAP) {
        return None;
      }
      if AllSized(es) {
        RecordForms(e);
        RecordsFrom(es, i, b);
      }
      if e.data.None? {
        b := b + (Put32(|e.path|) + Put32(DIR_MARK) + e.path);
      } else {
        b := b + (Put32(|e.path|) + Put32(|e.data.value|) + e.path + e.data.value);
      }
    }
    assert es[..|es|] == es;
    NoRecords(es[|es|..], b);
    blob := Some(b);
  }

  lemma RecordsFrom(es: seq<Entry>, i: nat, blob: seq<byte>)
    requires AllSized(es) && i < |es|
    ensures blob + Records(es[i..]) == blob + Record(es[i]) + Records(es[i + 1..])
  {
    hide Record;
    assert es[i..][1..] == es[i + 1..];
  }

  lemma NoRecords(es: seq<Entry>, blob: seq<byte>)
    requires es == []
    ensures blob + Records(es) == blob
  {
  }

  lemma RecordForms(e: Entry)
    requires Sized(e)
    ensures Record(e) == if e.data.None? then Put32(|e.path|) + Put32(DIR_MARK) + e.path
                         else Put32(|e.path|) + Put32(|e.data.value|) + e.path + e.data.value
  {
  }

  // ---- reading ----

  /** The record some bytes begin with and its length, if a whole, acceptable one is there. */
  function RecordIn(b: seq<byte>): (r: Option<(Entry, nat)>)
    ensures r.Some? ==> 8 < r.value.1 <= |b| && Packable(r.value.0)
  {
    if 8 > |b| then None
    else
      var pathLen, fileLen := Le32(b, 0), Le32(b, 4);
      if pathLen == 0 || pathLen >= PATH_MAX || 8 + pathLen > |b| then None
      else if fileLen == DIR_MARK then Some((Entry(b[8..8 + pathLen], None), 8 + pathLen))
      else if 8 + pathLen + fileLen > |b| then None
      else Some((Entry(b[8..8 + pathLen], Some(b[8 + pathLen..8 + pathLen + fileLen])), 8 + pathLen + fileLen))
  }

  /** Everything the unpacker visits. */
  function Visits(b: seq<byte>): (es: seq<Entry>)
    decreases |b|
  {
    var r := RecordIn(b);
    if r.None? then [] else [r.value.0] + Visits(b[r.value.1..])
  }

  /** Blobs so short that only a file's length can make a sum of offsets wrap around. */
  ghost predicate Short(b: seq<byte>) { |b| < WRAP - 8 - PATH_MAX }

  /** The sum in 32 bits. */
  function Add32(a: nat, b: nat): (c: nat)
    requires a < WRAP && b < WRAP
    ensures c < WRAP
  {
    if a + b < WRAP then a + b else a + b - WRAP
  }

  /** The record at `off` has a file so long that its end wraps around. */
  predicate WrapsHere(b: seq<byte>, off: nat) {
    && off + 8 <= |b|
    && (var pathLen, fileLen := Le32(b, off), Le32(b, off + 4);
        0 < pathLen < PATH_MAX && off + 8 + pathLen <= |b| && fileLen != DIR_MARK
          && off + 8 + pathLen + fileLen >= WRAP)
  }

  /** Visiting the records from `off` on ends at such a record. */
  predicate Wraps(b: seq<byte>, off: nat)
    requires off <= |b|
    decreases |b| - off
  {
    var r := RecordIn(b[off..]);
    if r.Some? then Wraps(b, off + r.value.1) else WrapsHere(b, off)
  }

  /** Walks over the blob and visits its entries, up to the first whose end wraps around. */
  method Unpack(b: seq<byte>) returns (visited: seq<Entry>, wrapped: bool)
    requires Short(b)
    ensures visited == Visits(b) && wrapped == Wraps(b, 0)
  {
    hide RecordIn, Le32, Visits, Wraps;
    visited, wrapped := [], false;
    var off := 0;
    assert b[0..] == b;
    while Add32(off, 8) <= |b|
      invariant off <= |b| && visited + Visits(b[off..]) == Visits(b) && Wraps(b, 0) == Wraps(b, off)
      decreases |b| - off
    {
      var pathLen, fileLen := Le32(b, off), Le32(b, off + 4);
      RecordHere(b, off);
      VisitStep(b, off, visited);
      WrapStep(b, off);
      ghost var at := off;
      off := Add32(off, 8);
      if pathLen == 0 || pathLen >= PATH_MAX || Add32(off, pathLen) > |b| {
        return;
      }
      if fileLen != DIR_MARK && Add32(Add32(off, pathLen), fileLen) > |b| {
        return;
      }
      if fileLen != DIR_MARK && off + pathLen + fileLen >= WRAP {
        return visited, true;
      }
      var path := b[off..off + pathLen];
      off := Add32(off, pathLen);
      if fileLen == DIR_MARK {
        visited := visited + [Entry(path, None)];
      } else {
        visited := visited + [Entry(path, Some(b[off..off + fileLen]))];
        off := Add32(off, fileLen);
      }
    }
    TooShort(b[off..]);
    WrapStep(b, off);
    VisitEnd(b[off..], visited);
  }

  lemma WrapStep(b: seq<byte>, off: nat)
    requires off <= |b|
    ensures var r := RecordIn(b[off..]);
      Wraps(b, off) == if r.Some? then Wraps(b, off + r.value.1) else WrapsHere(b, off)
  {
    hide RecordIn, WrapsHere;
  }

  // ---- where the offset goes ----

  /** Where one round of the unpacker takes the offset, if it goes on. */
  function Round(b: seq<byte>, off: nat): (r: Option<nat>)
    requires Short(b) && off <= |b|
    ensures r.Some? ==> r.value <= |b|
  {
    if Add32(off, 8) > |b| then None
    else
      var pathLen, fileLen, p := Le32(b, off), Le32(b, off + 4), Add32(off, 8);
      if pathLen == 0 || pathLen >= PATH_MAX || Add32(p, pathLen) > |b| then None
      else if fileLen == DIR_MARK then Some(Add32(p, pathLen))
      else if Add32(Add32(p, pathLen), fileLen) > |b| then None
      else Some(Add32(Add32(p, pathLen), fileLen))
  }

  /** A round goes to the next record, or ends, or goes backwards where the end of the file wraps around. */
  lemma RoundGoes(b: seq<byte>, off: nat)
    requires Short(b) && off <= |b|
    ensures var r, n := RecordIn(b[off..]), Round(b, off);
      if r.Some? then n == Some(off + r.value.1) && !WrapsHere(b, off)
      else if WrapsHere(b, off) then n.Some? && n.value < off + 8 + Le32(b, off)
      else n == None
  {
    if off + 8 <= |b| {
      RecordHere(b, off);
    } else {
      TooShort(b[off..]);
    }
    hide RecordIn, Le32;
  }

  /** How many records the unpacker visits in at most `k` rounds. */
  function Rounds(b: seq<byte>, off: nat, k: nat): (n: nat)
    requires Short(b) && off <= |b|
    ensures n <= k
    decreases k
  {
    if k == 0 then 0
    else
      var r := Round(b, off);
      if r.None? then 0 else 1 + Rounds(b, r.value, k - 1)
  }

  /** Without such a record the unpacker visits what can be read, and no more. */
  lemma {:induction false} RoundsSame(b: seq<byte>, off: nat, k: nat)
    requires Short(b) && off <= |b| && !Wraps(b, off)
    ensures var all := |Visits(b[off..])|; Rounds(b, off, k) == if k < all then k else all
    decreases k
  {
    hide RecordIn, Le32, Round;
    RoundGoes(b, off);
    VisitStep(b, off, []);
    var r := RecordIn(b[off..]);
    if r.Some? && k > 0 {
      RoundsSame(b, off + r.value.1, k - 1);
    }
  }

  lemma {:induction false} RoundsPast(b: seq<byte>, off: nat)
    requires Short(b) && off <= |b| && Wraps(b, off)
    ensures var all := |Visits(b[off..])|; Rounds(b, off, all + 1) == all + 1
    decreases |b| - off
  {
    hide RecordIn, Le32, Round;
    RoundGoes(b, off);
    VisitStep(b, off, []);
    var r, n := RecordIn(b[off..]), Round(b, off);
    if r.Some? {
      RoundsPast(b, off + r.value.1);
    } else {
      assert Rounds(b, n.value, 0) == 0;
    }
  }

  /** The unpacker never visits more than the records that can be read if and only if no file's end wraps around. */
  lemma RoundsEnd(b: seq<byte>)
    requires Short(b)
    ensures (forall k: nat :: Rounds(b, 0, k) <= |Visits(b)|) <==> !Wraps(b, 0)
  {
    hide Rounds, Visits, Wraps;
    assert b[0..] == b;
    if Wraps(b, 0) {
      RoundsPast(b, 0);
    } else {
      forall k: nat ensures Rounds(b, 0, k) <= |Visits(b)| {
        RoundsSame(b, 0, k);
      }
    }
  }

  /** Eight bytes of path, and a length that takes the offset back to the record it stands in. */
  function Loop(): (b: seq<byte>) { Put32(8) + Put32(0xFFFF_FFF0) + [0x2F, 0x6C, 0x6F, 0x6F, 0x70, 0x69, 0x6E, 0x67] }

  /** On this ramdisk nothing can be read, and the unpacker visits its record again and again. */
  lemma LoopsForever(k: nat)
    ensures Visits(Loop()) == [] && Rounds(Loop(), 0, k) == k
  {
    hide Le32, Put32;
    var b, path := Loop(), [0x2F, 0x6C, 0x6F, 0x6F, 0x70, 0x69, 0x6E, 0x67];
    Header(8, 0xFFFF_FFF0, path);
    assert Round(b, 0) == Some(0);
    RoundsAgain(b, k);
  }

  lemma {:induction false} RoundsAgain(b: seq<byte>, k: nat)
    requires Short(b) && Round(b, 0) == Some(0)
    ensures Rounds(b, 0, k) == k
  {
    hide Round;
    if k > 0 {
      RoundsAgain(b, k - 1);
    }
  }

  lemma VisitEnd(b: seq<byte>, visited: seq<Entry>)
    requires RecordIn(b) == None
    ensures visited + Visits(b) == visited
  {
  }

  lemma VisitStep(b: seq<byte>, off: nat, visited: seq<Entry>)
    requires off <= |b|
    ensures var r := RecordIn(b[off..]);
      if r.None? then visited + Visits(b[off..]) == visited
      else visited + Visits(b[off..]) == visited + [r.value.0] + Visits(b[off + r.value.1..])
  {
    hide RecordIn;
    var r := RecordIn(b[off..]);
    if r.Some? {
      assert b[off..][r.value.1..] == b[off + r.value.1..];
    }
  }

  lemma TooShort(b: seq<byte>)
    requires |b| < 8
    ensures RecordIn(b) == None
  {
  }

  /** The record at an offset, read in place. */
  lemma RecordHere(b: seq<byte>, off: nat)
    requires off + 8 <= |b|
    ensures
      var pathLen, fileLen, p := Le32(b, off), Le32(b, off + 4), off + 8;
      RecordIn(b[off..]) ==
        if pathLen == 0 || pathLen >= PATH_MAX || p + pathLen > |b| then None
        else if fileLen == DIR_MARK then Some((Entry(b[p..p + pathLen], None), 8 + pathLen))
        else if p + pathLen + fileLen > |b| then None
        else Some((Entry(b[p..p + pathLen], Some(b[p + pathLen..p + pathLen + fileLen])), 8 + pathLen + fileLen))
  {
    var s := b[off..];
    assert Le32(s, 0) == Le32(b, off) && Le32(s, 4) == Le32(b, off + 4);
    var pathLen, fileLen := Le32(b, off), Le32(b, off + 4);
    hide Le32;
    if 8 + pathLen <= |s| {
      assert s[8..8 + pathLen] == b[off + 8..off + 8 + pathLen];
      if 8 + pathLen + fileLen <= |s| {
        assert s[8 + pathLen..8 + pathLen + fileLen] == b[off + 8 + pathLen..off + 8 + pathLen + fileLen];
      }
    }
  }

  // ---- the two together ----

  /** A record's header, with whatever is behind it. */
  lemma Header(n: nat, m: nat, rest: seq<byte>)
    requires n < 0x1_0000_0000 && m < 0x1_0000_0000
    ensures var b := Put32(n) + Put32(m) + rest; Le32(b, 0) == n && Le32(b, 4) == m && b[8..] == rest
  {
    var b, p, q := Put32(n) + Put32(m) + rest, Put32(n), Put32(m);
    assert b[0] == p[0] && b[1] == p[1] && b[2] == p[2] && b[3] == p[3];
    assert b[4] == q[0] && b[5] == q[1] && b[6] == q[2] && b[7] == q[3];
    assert Le32(b, 0) == Le32(p, 0) && Le32(b, 4) == Le32(q, 0);
  }

  /** A record that is there is read back. */
  lemma RecordRead(e: Entry, rest: seq<byte>)
    requires Packable(e)
    ensures RecordIn(Record(e) + rest) == Some((e, |Record(e)|)) && (Record(e) + rest)[|Record(e)|..] == rest
  {
    hide Le32, Put32;
    var n, m := |e.path|, if e.data.Some? then |e.data.value| else DIR_MARK;
    var body := e.path + if e.data.Some? then e.data.value else [];
    var b := Record(e) + rest;
    assert b == Put32(n) + Put32(m) + (body + rest);
    Header(n, m, body + rest);
    var s := b[8..];
    assert s == e.path + (if e.data.Some? then e.data.value else []) + rest;
    assert b[8..8 + n] == s[..n] == e.path;
    if e.data.Some? {
      assert b[8 + n..8 + n + m] == s[n..n + m] == e.data.value;
    }
  }

  /** One that is cut short is not read at all. */
  lemma RecordCut(e: Entry, n: nat)
    requires Packable(e) && n < |Record(e)|
    ensures RecordIn(Record(e)[..n]) == None
  {
    hide Le32, Put32;
    if n >= 8 {
      var k, m := |e.path|, if e.data.Some? then |e.data.value| else DIR_MARK;
      var body := e.path + if e.data.Some? then e.data.value else [];
      assert Record(e) == Put32(k) + Put32(m) + body;
      assert Record(e)[..n] == Put32(k) + Put32(m) + body[..n - 8];
      Header(k, m, body[..n - 8]);
    }
  }

  /** One whose path has a length the unpacker does not take is not read; data as long as the directory mark is lost. */
  lemma RecordLost(e: Entry, rest: seq<byte>)
    requires Sized(e) && !Packable(e)
    ensures var r := RecordIn(Record(e) + rest); r.None? || r.value.0 != e
  {
    hide Le32, Put32;
    var n, m := |e.path|, if e.data.Some? then |e.data.value| else DIR_MARK;
    var body := e.path + if e.data.Some? then e.data.value else [];
    assert Record(e) + rest == Put32(n) + Put32(m) + (body + rest);
    Header(n, m, body + rest);
  }

  /** Unpacking a packed ramdisk visits exactly the packed entries, in order, if and only if it takes each of them. */
  lemma {:induction false} UnpackPacked(es: seq<Entry>)
    requires AllSized(es)
    ensures Visits(Records(es)) == es <==> AllPackable(es)
  {
    hide Record, RecordIn, Sized;
    if es == [] {
      TooShort(Records(es));
    } else if Packable(es[0]) {
      RecordRead(es[0], Records(es[1..]));
      UnpackPacked(es[1..]);
      assert es == [es[0]] + es[1..];
      assert forall i :: 0 < i < |es| ==> es[i] == es[1..][i - 1];
    } else {
      RecordLost(es[0], Records(es[1..]));
    }
  }

  /** Cut off anywhere, the ramdisk still gives exactly the entries whose records are complete. */
  lemma {:induction false} UnpackCut(es: seq<Entry>, n: nat) returns (k: nat)
    requires AllPackable(es) && n <= |Records(es)|
    ensures k <= |es| && AllPackable(es[..k]) && |Records(es[..k])| <= n
    ensures k < |es| ==> AllPackable(es[..k + 1]) && n < |Records(es[..k + 1])|
    ensures Visits(Records(es)[..n]) == es[..k]
  {
    hide Record, RecordIn;
    k := 0;
    if es == [] {
      TooShort(Records(es)[..n]);
    } else {
      var r, rest := Record(es[0]), Records(es[1..]);
      if n < |r| {
        RecordCut(es[0], n);
        assert Records(es)[..n] == r[..n];
        One(es);
      } else {
        var j := UnpackCut(es[1..], n - |r|);
        assert Records(es)[..n] == r + rest[..n - |r|];
        RecordRead(es[0], rest[..n - |r|]);
        k := j + 1;
        More(es, j);
        if k < |es| {
          More(es, j + 1);
        }
      }
    }
  }

  /** In a packed ramdisk, whole or cut off anywhere, no file's end wraps around. */
  lemma {:induction false} PackedUnwrapped(b: seq<byte>, off: nat, es: seq<Entry>, n: nat)
    requires AllPackable(es) && off <= |b| && off + |Records(es)| < WRAP
    requires n <= |Records(es)| && b[off..] == Records(es)[..n]
    ensures !Wraps(b, off)
    decreases |es|
  {
    hide Record, RecordIn, WrapsHere;
    WrapStep(b, off);
    if es == [] {
      TooShort(b[off..]);
      WrapsShort(b, off);
    } else {
      var r, rest := Record(es[0]), Records(es[1..]);
      if n < |r| {
        assert b[off..] == r[..n];
        RecordCut(es[0], n);
        CutUnwrapped(b, off, es[0], n);
      } else {
        assert b[off..] == r + rest[..n - |r|];
        RecordRead(es[0], rest[..n - |r|]);
        assert b[off + |r|..] == b[off..][|r|..];
        PackedUnwrapped(b, off + |r|, es[1..], n - |r|);
      }
    }
  }

  lemma WrapsShort(b: seq<byte>, off: nat)
    requires off + 8 > |b|
    ensures !WrapsHere(b, off)
  {
  }

  lemma CutUnwrapped(b: seq<byte>, off: nat, e: Entry, n: nat)
    requires Packable(e) && n < |Record(e)| && off <= |b| && b[off..] == Record(e)[..n] && off + |Record(e)| < WRAP
    ensures !WrapsHere(b, off)
  {
    hide Le32, Put32;
    if off + 8 <= |b| {
      var k, m := |e.path|, if e.data.Some? then |e.data.value| else DIR_MARK;
      var body := e.path + if e.data.Some? then e.data.value else [];
      assert Record(e) == Put32(k) + Put32(m) + body;
      assert b[off..] == Put32(k) + Put32(m) + body[..n - 8];
      Header(k, m, body[..n - 8]);
      LengthsHere(b, off);
    }
  }

  lemma LengthsHere(b: seq<byte>, off: nat)
    requires off + 8 <= |b|
    ensures Le32(b[off..], 0) == Le32(b, off) && Le32(b[off..], 4) == Le32(b, off + 4)
  {
  }

  lemma One(es: seq<Entry>)
    requires AllPackable(es) && es != []
    ensures AllPackable(es[..1]) && Records(es[..1]) == Record(es[0])
  {
    assert es[..1][1..] == [];
  }

  lemma More(es: seq<Entry>, j: nat)
    requires AllPackable(es) && j < |es| && AllPackable(es[1..][..j])
    ensures es[..j + 1] == [es[0]] + es[1..][..j]
    ensures AllPackable(es[..j + 1]) && Records(es[..j + 1]) == Record(es[0]) + Records(es[1..][..j])
  {
    hide Record;
    assert es[..j + 1][1..] == es[1..][..j];
  }
}
