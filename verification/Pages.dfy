/** The physical page allocator: a bitmap packed eight pages to the byte, searched first-fit. */
module Pages {
  import opened Wrappers
  import opened Bytes

  const PAGE: nat := 4096

  function Size(n: nat): nat { n * PAGE }

  /** Pages for so many bytes. */
  function PagesFor(n: nat): (m: nat)
    ensures n <= Size(m) < n + PAGE
  {
    (n + PAGE - 1) / PAGE
  }

  // ---- bits in bytes ----

  /** Bit `k` of a number: shifted right `k` times, its lowest bit. */
  function BitOf(b: nat, k: nat): bool { if k == 0 then b % 2 == 1 else BitOf(b / 2, k - 1) }

  function WithBit(b: nat, k: nat, v: bool): nat {
    if k == 0 then b / 2 * 2 + (if v then 1 else 0) else 2 * WithBit(b / 2, k - 1, v) + b % 2
  }

  function Pow2(n: nat): (p: nat)
    ensures p > 0
  {
    if n == 0 then 1 else 2 * Pow2(n - 1)
  }

  /** Setting a bit sets that bit only. */
  lemma {:induction false} WithBitReads(b: nat, k: nat, v: bool, j: nat)
    ensures BitOf(WithBit(b, k, v), j) == if j == k then v else BitOf(b, j)
  {
    if k > 0 && j > 0 {
      WithBitReads(b / 2, k - 1, v, j - 1);
    }
  }

  lemma {:induction false} WithBitFits(b: nat, k: nat, v: bool, n: nat)
    requires b < Pow2(n) && k < n
    ensures WithBit(b, k, v) < Pow2(n)
  {
    if k > 0 {
      WithBitFits(b / 2, k - 1, v, n - 1);
    }
  }

  /** The bits of a packed map. */
  function Unpacked(cells: seq<byte>, count: nat): (s: seq<bool>)
    requires |cells| > count / 8
    ensures |s| == count
    ensures forall i :: 0 <= i < count ==> s[i] == BitOf(cells[i / 8], i % 8)
  {
    seq(count, i requires 0 <= i < count => BitOf(cells[i / 8], i % 8))
  }

  // ---- runs ----

  predicate FreeRun(bits: seq<bool>, i: nat, n: nat) {
    i + n <= |bits| && forall k :: i <= k < i + n ==> !bits[k]
  }

  function WithRun(bits: seq<bool>, i: nat, n: nat, v: bool): (r: seq<bool>)
    ensures |r| == |bits|
    ensures forall k :: 0 <= k < |bits| ==> r[k] == if i <= k < i + n then v else bits[k]
  {
    seq(|bits|, k requires 0 <= k < |bits| => if i <= k < i + n then v else bits[k])
  }

  /** No `n` free pages lie together. */
  ghost predicate NoRoom(bits: seq<bool>, n: nat) { forall i: nat :: !FreeRun(bits, i, n) }

  /** The lowest run of `n` free pages from `i` on. */
  function FirstFit(bits: seq<bool>, n: nat, i: nat): (r: Option<nat>)
    ensures r.Some? ==> n > 0 && i <= r.value && FreeRun(bits, r.value, n)
    decreases |bits| - i
  {
    if n == 0 || i >= |bits| then None else if FreeRun(bits, i, n) then Some(i) else FirstFit(bits, n, i + 1)
  }

  /** None is found only if there is none. */
  lemma {:induction false} NoneFits(bits: seq<bool>, n: nat, i: nat)
    requires n > 0 && FirstFit(bits, n, i).None?
    ensures forall j: nat :: i <= j ==> !FreeRun(bits, j, n)
    decreases |bits| - i
  {
    hide FreeRun;
    if i < |bits| {
      NoneFits(bits, n, i + 1);
    } else {
      forall j: nat | i <= j ensures !FreeRun(bits, j, n) {
        NoRunBehind(bits, n, j);
      }
    }
  }

  /** The scan finds room if and only if there is some. */
  lemma RoomFound(bits: seq<bool>, n: nat)
    requires n > 0
    ensures FirstFit(bits, n, 0).None? <==> NoRoom(bits, n)
  {
    if FirstFit(bits, n, 0).None? {
      NoneFits(bits, n, 0);
    }
  }

  lemma NoRunBehind(bits: seq<bool>, n: nat, j: nat)
    requires n > 0 && j >= |bits|
    ensures !FreeRun(bits, j, n)
  {}

  function InUse(bits: seq<bool>): nat {
    if bits == [] then 0 else InUse(bits[..|bits| - 1]) + if bits[|bits| - 1] then 1 else 0
  }

  /** Marking a free run takes exactly its pages. */
  lemma {:induction false} RunCounts(bits: seq<bool>, i: nat, n: nat)
    requires FreeRun(bits, i, n)
    ensures InUse(WithRun(bits, i, n, true)) == InUse(bits) + n
  {
    if n == 0 {
      assert WithRun(bits, i, n, true) == bits;
    } else {
      var last := |bits| - 1;
      RunFront(bits, i, n);
      RunCounts(bits[..last], i, if i + n == |bits| then n - 1 else n);
    }
  }

  lemma RunFront(bits: seq<bool>, i: nat, n: nat)
    requires FreeRun(bits, i, n) && n > 0
    ensures var last, all, k := |bits| - 1, WithRun(bits, i, n, true), if i + n == |bits| then n - 1 else n;
      && FreeRun(bits[..last], i, k) && all[..last] == WithRun(bits[..last], i, k, true)
      && all[last] == (bits[last] || i + n == |bits|) && (i + n == |bits| ==> !bits[last])
  {
  }

  /** Taking a run and giving it back restores the map. */
  lemma RunBack(bits: seq<bool>, i: nat, n: nat)
    requires FreeRun(bits, i, n)
    ensures WithRun(WithRun(bits, i, n, true), i, n, false) == bits
  {
  }

  /** What pages hold once they were given back. */
  const POISON: byte := 0xA5

  /** Physical memory. */
  class Ram {
    var bytes: seq<byte>

    constructor (content: seq<byte>)
      ensures bytes == content
    {
      bytes := content;
    }
  }

  class PageMap {
    const cells: array<byte>
    const count: nat

    ghost predicate Valid()
      reads this
    {
      cells.Length == count / 8 + 1
    }

    ghost function Bits(): (s: seq<bool>)
      requires Valid()
      reads this, cells
      ensures |s| == count
    {
      Unpacked(cells[..], count)
    }

    constructor (pages: nat)
      ensures Valid() && count == pages && Bits() == seq(pages, _ => false) && fresh(cells)
    {
      count := pages;
      cells := new byte[pages / 8 + 1](_ => 0);
      new;
      forall k: nat ensures !BitOf(0, k) {
        ZeroBits(k);
      }
    }

    method Get(i: nat) returns (v: bool)
      requires Valid() && i < count
      ensures v == Bits()[i]
    {
      v := BitOf(cells[i / 8], i % 8);
    }

    method Set(i: nat, v: bool)
      requires Valid() && i < count
      modifies cells
      ensures Bits() == old(Bits())[i := v]
    {
      PowEight();
      WithBitFits(cells[i / 8], i % 8, v, 8);
      ghost var was := cells[i / 8];
      cells[i / 8] := WithBit(cells[i / 8], i % 8, v);
      forall j | 0 <= j < count ensures BitOf(cells[j / 8], j % 8) == if j == i then v
        else old(BitOf(cells[j / 8], j % 8))
      {
        if j / 8 == i / 8 {
          WithBitReads(was, i % 8, v, j % 8);
        }
      }
    }

    /** The lowest run of `n` free pages, if there is one. */
    method Alloc(n: nat) returns (r: Option<nat>)
      requires Valid()
      modifies cells
      ensures r.Some? ==>
        var i := r.value;
        && n > 0 && FreeRun(old(Bits()), i, n) && (forall j :: 0 <= j < i ==> !FreeRun(old(Bits()), j, n))
        && Bits() == WithRun(old(Bits()), i, n, true)
      ensures r.None? ==> Bits() == old(Bits()) && (n == 0 || NoRoom(Bits(), n))
      ensures r == FirstFit(old(Bits()), n, 0)
    {
      hide Unpacked, WithRun;
      if n == 0 {
        return None;
      }
      var i := 0;
      while i < count
        invariant i <= count && Bits() == old(Bits())
        invariant FirstFit(Bits(), n, 0) == FirstFit(Bits(), n, i)
        invariant forall j :: 0 <= j < i ==> !FreeRun(Bits(), j, n)
      {
        var b := Get(i);
        if !b {
          var run := 0;
          while i + run < count && run < n
            invariant i + run <= count && run <= n && Bits() == old(Bits()) && FreeRun(Bits(), i, run)
          {
            var taken := Get(i + run);
            if taken {
              break;
            }
            run := run + 1;
          }
          if run == n {
            MarkRun(i, n);
            return Some(i);
          }
        }
        i := i + 1;
      }
      return None;
    }

    method MarkRun(i: nat, n: nat)
      requires Valid() && i + n <= count
      modifies cells
      ensures Bits() == WithRun(old(Bits()), i, n, true)
    {
      for j := 0 to n
        invariant Bits() == WithRun(old(Bits()), i, j, true)
      {
        Set(i + j, true);
      }
    }

    /** Clears a run, as far as it lies in the cells. */
    method Free(i: nat, n: nat)
      requires Valid()
      modifies cells
      ensures Bits() == WithRun(old(Bits()), i, n, false)
    {
      if i >= count {
        return;
      }
      var j := 0;
      while j < n && i + j < count
        invariant j <= n && i + j <= count
        invariant Bits() == WithRun(old(Bits()), i, j, false)
      {
        Set(i + j, false);
        j := j + 1;
      }
    }

    /** Bytes in use. */
    method PhysUsed() returns (u: nat)
      requires Valid()
      ensures u == Size(InUse(Bits()))
    {
      var c := 0;
      for i := 0 to count
        invariant c == InUse(Bits()[..i])
      {
        var b := Get(i);
        assert Bits()[..i + 1][..i] == Bits()[..i];
        if b {
          c := c + 1;
        }
      }
      assert Bits()[..count] == Bits();
      u := Size(c);
    }
  }

  lemma {:induction false} ZeroBits(k: nat)
    ensures !BitOf(0, k)
  {
    if k > 0 {
      ZeroBits(k - 1);
    }
  }

  lemma PowEight()
    ensures Pow2(8) == 256
  {
    assert Pow2(4) == 16;
  }
}
