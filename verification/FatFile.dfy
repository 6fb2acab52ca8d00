/** A file's bytes, read off the sectors of its chain. */
module FatFile {
  import opened Bytes
  import opened FatTable
  import opened FatChain

  ghost predicate InVolume(g: Geometry, ch: seq<nat>) {
    forall i :: 0 <= i < |ch| ==> 2 <= ch[i] < g.Last()
  }

  /** Sector number `q` of a chain; 0 behind its end. */
  function SecLba(g: Geometry, ch: seq<nat>, q: nat): nat {
    if g.spc > 0 && q / g.spc < |ch| then g.ClusLba(ch[q / g.spc]) + q % g.spc else 0
  }

  /** A cluster's sectors lie in the data region and belong to no other cluster. */
  lemma ClusterSectors(g: Geometry, c: nat, s: nat)
    requires g.Valid() && 2 <= c < g.Last() && s < g.spc
    ensures g.dataStart <= g.ClusLba(c) + s < g.tot
    ensures g.ClusOf(g.ClusLba(c) + s) == c
  {
    ClusterInData(g, c);
    hide Geometry.Valid, Geometry.Last;
    BlockWithin(c - 2, s, g.spc, g.tot - g.dataStart);
  }

  lemma ClusterInData(g: Geometry, c: nat)
    requires g.Valid() && 2 <= c < g.Last()
    ensures g.dataStart <= g.tot && g.spc > 0 && c - 2 < (g.tot - g.dataStart) / g.spc
  {
  }

  lemma SectorIndex(ch: seq<nat>, spc: nat, q: nat)
    requires spc > 0 && q < |ch| * spc
    ensures q / spc < |ch|
  {
    if |ch| <= q / spc {
      MulMono(|ch|, q / spc, spc);
    }
  }

  lemma SecPlace(g: Geometry, ch: seq<nat>, q: nat)
    requires g.Valid() && InVolume(g, ch) && q < |ch| * g.spc
    ensures q / g.spc < |ch|
    ensures g.dataStart <= SecLba(g, ch, q) < g.tot && g.ClusOf(SecLba(g, ch, q)) == ch[q / g.spc]
    ensures SecLba(g, ch, q) == g.ClusLba(ch[q / g.spc]) + q % g.spc
  {
    SectorIndex(ch, g.spc, q);
    ClusterSectors(g, ch[q / g.spc], q % g.spc);
  }

  lemma SecInjective(g: Geometry, ch: seq<nat>, q1: nat, q2: nat)
    requires g.Valid() && InVolume(g, ch) && Distinct(ch)
    requires q1 / g.spc < |ch| && q2 / g.spc < |ch|
    requires SecLba(g, ch, q1) == SecLba(g, ch, q2)
    ensures q1 == q2
  {
    hide Geometry.ClusLba, Geometry.ClusOf, InVolume, Distinct;
    SameClusterSector(g, ch, q1 / g.spc, q1 % g.spc, q2 / g.spc, q2 % g.spc);
    SameQuotRem(q1, q2, g.spc);
  }

  lemma SameClusterSector(g: Geometry, ch: seq<nat>, i1: nat, r1: nat, i2: nat, r2: nat)
    requires g.Valid() && InVolume(g, ch) && Distinct(ch) && i1 < |ch| && i2 < |ch| && r1 < g.spc && r2 < g.spc
    requires g.ClusLba(ch[i1]) + r1 == g.ClusLba(ch[i2]) + r2
    ensures i1 == i2 && r1 == r2
  {
    hide Geometry.ClusLba, Geometry.ClusOf;
    ClusterSectors(g, ch[i1], r1);
    ClusterSectors(g, ch[i2], r2);
    assert ch[i1] == ch[i2];
  }

  lemma SameQuotRem(q1: nat, q2: nat, k: nat)
    requires k > 0 && q1 / k == q2 / k && q1 % k == q2 % k
    ensures q1 == q2
  {
    assert q1 == q1 / k * k + q1 % k && q2 == q2 / k * k + q2 % k;
  }

  /** Bytes a chain can hold. */
  function Capacity(g: Geometry, ch: seq<nat>): nat { |ch| * (g.spc * SEC) }

  /** The index of the cluster a position lies in, where that cluster starts, and how far into it the position is. */
  function ClusIdx(g: Geometry, p: nat): nat { if g.spc > 0 then p / (g.spc * SEC) else 0 }

  function ClusStart(g: Geometry, q: nat): nat { q * (g.spc * SEC) }

  function InClus(g: Geometry, p: nat): nat { if g.spc > 0 then p % (g.spc * SEC) else 0 }

  lemma BytePlace(g: Geometry, ch: seq<nat>, p: nat)
    requires g.Valid() && InVolume(g, ch) && p < Capacity(g, ch)
    ensures p / SEC < |ch| * g.spc && p / SEC / g.spc < |ch|
    ensures g.dataStart <= SecLba(g, ch, p / SEC) < g.tot
    ensures g.ClusOf(SecLba(g, ch, p / SEC)) == ch[p / SEC / g.spc]
  {
    assert |ch| * (g.spc * SEC) == |ch| * g.spc * SEC;
    SecPlace(g, ch, p / SEC);
  }

  /** Byte `p` of a chain; 0 behind its end. */
  function ByteAt(g: Geometry, d: Disk, ch: seq<nat>, p: nat): byte {
    var lba := SecLba(g, ch, p / SEC);
    if lba < |d| then d[lba][p % SEC] else 0
  }

  /** The first `n` bytes of a chain: what a file of size `n` holds. */
  ghost function Content(g: Geometry, d: Disk, ch: seq<nat>, n: nat): (s: seq<byte>)
    ensures |s| == n
  {
    seq(n, p requires 0 <= p => ByteAt(g, d, ch, p))
  }

  /** A byte range inside one sector, written through that sector, changes exactly those bytes of the chain. */
  lemma PatchedBytes(g: Geometry, d: Disk, ch: seq<nat>, pos: nat, data: seq<byte>)
    requires Fits(g, d) && InVolume(g, ch) && Distinct(ch)
    requires pos < Capacity(g, ch) && pos % SEC + |data| <= SEC
    requires SecLba(g, ch, pos / SEC) < |d|
    ensures var lba := SecLba(g, ch, pos / SEC);
      var d' := d[lba := Patch(d[lba], pos % SEC, data)];
      forall p :: 0 <= p < Capacity(g, ch) ==>
        ByteAt(g, d', ch, p) == if pos <= p < pos + |data| then data[p - pos] else ByteAt(g, d, ch, p)
  {
    var lba := SecLba(g, ch, pos / SEC);
    var d' := d[lba := Patch(d[lba], pos % SEC, data)];
    BytePlace(g, ch, pos);
    forall p | 0 <= p < Capacity(g, ch)
      ensures ByteAt(g, d', ch, p) == if pos <= p < pos + |data| then data[p - pos] else ByteAt(g, d, ch, p)
    {
      BytePlace(g, ch, p);
      SectorSeparates(g, ch, p, pos);
      assert p / SEC == pos / SEC ==> p - pos == p % SEC - pos % SEC;
    }
  }

  lemma SectorSeparates(g: Geometry, ch: seq<nat>, p1: nat, p2: nat)
    requires g.Valid() && InVolume(g, ch) && Distinct(ch)
    requires p1 / SEC / g.spc < |ch| && p2 / SEC / g.spc < |ch|
    ensures SecLba(g, ch, p1 / SEC) == SecLba(g, ch, p2 / SEC) <==> p1 / SEC == p2 / SEC
  {
    if SecLba(g, ch, p1 / SEC) == SecLba(g, ch, p2 / SEC) {
      SecInjective(g, ch, p1 / SEC, p2 / SEC);
    }
  }

  /** A chain's bytes only depend on the sectors of its clusters. */
  lemma ContentFrame(g: Geometry, d: Disk, d': Disk, ch: seq<nat>, n: nat)
    requires Fits(g, d) && Fits(g, d') && InVolume(g, ch) && n <= Capacity(g, ch)
    requires forall lba :: g.dataStart <= lba < g.tot && g.ClusOf(lba) in ch ==> d'[lba] == d[lba]
    ensures Content(g, d', ch, n) == Content(g, d, ch, n)
  {
    hide SecLba, Geometry.ClusLba, Geometry.ClusOf, Capacity;
    forall p | 0 <= p < n ensures ByteAt(g, d', ch, p) == ByteAt(g, d, ch, p) {
      BytePlace(g, ch, p);
    }
  }

  /** Growing the chain keeps the bytes it already has. */
  lemma ContentGrown(g: Geometry, d: Disk, ch: seq<nat>, c: nat, n: nat)
    requires Fits(g, d) && InVolume(g, ch) && 2 <= c < g.Last() && n <= Capacity(g, ch)
    ensures InVolume(g, ch + [c]) && Capacity(g, ch + [c]) == Capacity(g, ch) + g.spc * SEC
    ensures Content(g, d, ch + [c], n) == Content(g, d, ch, n)
  {
    assert |ch + [c]| * (g.spc * SEC) == |ch| * (g.spc * SEC) + g.spc * SEC;
    forall p | 0 <= p < n ensures ByteAt(g, d, ch + [c], p) == ByteAt(g, d, ch, p) {
      BytePlace(g, ch, p);
      BytePlace(g, ch + [c], p);
    }
  }
}
