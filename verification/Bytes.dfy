/** Little-endian bytes and the division facts the disk layout needs. */
module Bytes {

  type byte = b: int | 0 <= b < 256

  const SEC: nat := 512

  type Sector = s: seq<byte> | |s| == SEC witness seq(SEC, _ => 0)

  function Le16(s: seq<byte>, o: nat): (v: nat)
    requires o + 2 <= |s|
    ensures v < 0x1_0000
  {
    s[o] as int + 0x100 * s[o + 1] as int
  }

  function Le32(s: seq<byte>, o: nat): (v: nat)
    requires o + 4 <= |s|
    ensures v < 0x1_0000_0000
  {
    s[o] as int + 0x100 * s[o + 1] as int + 0x1_0000 * s[o + 2] as int + 0x100_0000 * s[o + 3] as int
  }

  /** The byte at the lowest place is the last digit to the base 256, and the one behind it the digit before. */
  lemma LowFirst(s: seq<byte>, o: nat)
    requires o + 4 <= |s|
    ensures Le16(s, o) % 0x100 == s[o] && Le16(s, o) / 0x100 == s[o + 1]
    ensures Le32(s, o) % 0x1_0000 == Le16(s, o) && Le32(s, o) / 0x1_0000 == Le16(s, o + 2)
  {
    assert Le32(s, o) == Le16(s, o) + 0x1_0000 * Le16(s, o + 2);
  }

  function Put16(v: nat): (p: seq<byte>)
    requires v < 0x1_0000
    ensures |p| == 2 && Le16(p, 0) == v
  {
    [v % 0x100, v / 0x100]
  }

  function Put32(v: nat): (p: seq<byte>)
    requires v < 0x1_0000_0000
    ensures |p| == 4 && Le32(p, 0) == v
  {
    var h := v / 0x100;
    var i := h / 0x100;
    [v % 0x100, h % 0x100, i % 0x100, i / 0x100]
  }

  /** A field behind others is read at their length. */
  lemma Field16(pre: seq<byte>, v: nat, post: seq<byte>)
    requires v < 0x1_0000
    ensures Le16(pre + Put16(v) + post, |pre|) == v
  {
    hide Put16;
    var s, p := pre + Put16(v) + post, Put16(v);
    assert s[|pre|] == p[0] && s[|pre| + 1] == p[1];
    assert Le16(s, |pre|) == Le16(p, 0);
  }

  lemma Field32(pre: seq<byte>, v: nat, post: seq<byte>)
    requires v < 0x1_0000_0000
    ensures Le32(pre + Put32(v) + post, |pre|) == v
  {
    hide Put32;
    var s, p := pre + Put32(v) + post, Put32(v);
    assert s[|pre|] == p[0] && s[|pre| + 1] == p[1] && s[|pre| + 2] == p[2] && s[|pre| + 3] == p[3];
    assert Le32(s, |pre|) == Le32(p, 0);
  }

  /** `s` with the bytes at `o` replaced by `p`. */
  function Patch<T>(s: seq<T>, o: nat, p: seq<T>): (r: seq<T>)
    requires o + |p| <= |s|
    ensures |r| == |s|
    ensures forall i :: 0 <= i < |s| ==> r[i] == if o <= i < o + |p| then p[i - o] else s[i]
  {
    s[..o] + p + s[o + |p|..]
  }

  /** Flat-file writing: the bytes from `p` on are replaced, the file grows if they reach past its end. */
  function Overwrite<T>(s: seq<T>, p: nat, data: seq<T>): (r: seq<T>)
    requires p <= |s|
    ensures |r| == if p + |data| > |s| then p + |data| else |s|
  {
    s[..p] + data + if p + |data| < |s| then s[p + |data|..] else []
  }

  /** Quotient and remainder are determined by the decomposition. */
  lemma DivModUnique(n: int, k: int, q: int, r: int)
    requires k > 0 && 0 <= r < k && n == q * k + r
    ensures n / k == q && n % k == r
  {
    var q', r' := n / k, n % k;
    assert n == q' * k + r';
    if q < q' {
      MulMono(q + 1, q', k);
    } else if q' < q {
      MulMono(q' + 1, q, k);
    }
  }

  lemma MulMono(a: int, b: int, k: int)
    requires a <= b && k >= 0
    ensures a * k <= b * k
  {
    assert (b - a) * k >= 0;
  }

  /** Blocks of `k` within a range of `t`. */
  lemma BlockWithin(b: nat, s: nat, k: nat, t: nat)
    requires s < k && b < t / k
    ensures b * k + s < t && (b * k + s) / k == b && (b * k + s) % k == s
  {
    var n := t / k;
    DivModUnique(b * k + s, k, b, s);
    MulMono(b + 1, n, k);
    assert (b + 1) * k == b * k + k;
    assert t == n * k + t % k;
  }

  /** Position in a chain: cluster index and sector within the cluster only depend on the sector number. */
  lemma ClusterPosition(p: nat, spc: nat)
    requires spc > 0
    ensures p / (spc * SEC) == p / SEC / spc
    ensures p % (spc * SEC) / SEC == p / SEC % spc
    ensures p % (spc * SEC) % SEC == p % SEC
  {
    var q, r := p / SEC, p % SEC;
    var a, b := q / spc, q % spc;
    assert q == a * spc + b;
    assert p == a * (spc * SEC) + (b * SEC + r);
    assert b * SEC + r < spc * SEC;
    DivModUnique(p, spc * SEC, a, b * SEC + r);
    DivModUnique(b * SEC + r, SEC, b, r);
  }
}
