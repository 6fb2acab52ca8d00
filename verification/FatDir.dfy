/** Directories: 32-byte entries in a list of sectors, read as a finite map from 8.3 names. */
module FatDir {
  import opened Wrappers
  import opened Bytes
  import opened FatTable

  const PER_SEC: nat := 16

  ghost predicate SectorsOf(d: Disk, secs: seq<nat>) {
    && (forall i :: 0 <= i < |secs| ==> secs[i] < |d|)
    && (forall i, j :: 0 <= i < j < |secs| ==> secs[i] != secs[j])
  }

  /** The 32-byte entry at a place on the disk; blank where there is no such place. */
  function EntOf(d: Disk, sec: nat, off: nat): (e: seq<byte>)
    ensures |e| == 32
  {
    if sec < |d| && off + 32 <= SEC then d[sec][off..off + 32] else seq(32, _ => 0)
  }

  /** Entry `k` of a directory. */
  function Ent(d: Disk, secs: seq<nat>, k: nat): (e: seq<byte>)
    ensures |e| == 32
  {
    if k / PER_SEC < |secs| then EntOf(d, secs[k / PER_SEC], k % PER_SEC * 32) else seq(32, _ => 0)
  }

  predicate Live(e: seq<byte>) requires |e| == 32 { e[0] != 0 && e[0] != 0xE5 && e[11] != 0x0F }

  function NameOf(e: seq<byte>): seq<byte> requires |e| == 32 { e[..11] }

  /** No live entry follows an end marker, and no name occurs twice. */
  ghost predicate DirOk(d: Disk, secs: seq<nat>) {
    && SectorsOf(d, secs)
    && (forall j, k :: 0 <= j < k < |secs| * PER_SEC && Ent(d, secs, j)[0] == 0 ==> !Live(Ent(d, secs, k)))
    && (forall j, k :: 0 <= j < k < |secs| * PER_SEC && Live(Ent(d, secs, j)) && Live(Ent(d, secs, k)) ==>
          NameOf(Ent(d, secs, j)) != NameOf(Ent(d, secs, k)))
  }

  /** Entry `k` is live and called `n`. */
  ghost predicate Has(d: Disk, secs: seq<nat>, k: int, n: seq<byte>) {
    0 <= k < |secs| * PER_SEC && Live(Ent(d, secs, k)) && NameOf(Ent(d, secs, k)) == n
  }

  /** The names a directory holds, with the entry each is at. */
  ghost function Names(d: Disk, secs: seq<nat>): (m: map<seq<byte>, nat>)
    ensures forall n :: n in m <==> exists k :: Has(d, secs, k, n)
    ensures forall n :: n in m ==> Has(d, secs, m[n], n)
  {
    var ns := set k | 0 <= k < |secs| * PER_SEC && Live(Ent(d, secs, k)) :: NameOf(Ent(d, secs, k));
    assert forall k, n :: Has(d, secs, k, n) ==> n in ns;
    forall n | n in ns ensures exists k :: Has(d, secs, k, n) {
      var k :| 0 <= k < |secs| * PER_SEC && Live(Ent(d, secs, k)) && NameOf(Ent(d, secs, k)) == n;
      assert Has(d, secs, k, n);
    }
    map n | n in ns :: var k :| Has(d, secs, k, n); k
  }

  /** A live entry is what its name maps to. */
  lemma NamesAt(d: Disk, secs: seq<nat>, k: nat, n: seq<byte>)
    requires DirOk(d, secs) && Has(d, secs, k, n)
    ensures n in Names(d, secs) && Names(d, secs)[n] == k
  {
    var j := Names(d, secs)[n];
    assert j < k || k < j || j == k;
  }

  /** Directories whose entries carry `n` at the same places agree on `n`. */
  lemma NameAgrees(d: Disk, secs: seq<nat>, d': Disk, secs': seq<nat>, n: seq<byte>)
    requires DirOk(d, secs) && DirOk(d', secs')
    requires forall k :: Has(d, secs, k, n) <==> Has(d', secs', k, n)
    ensures n in Names(d', secs') <==> n in Names(d, secs)
    ensures n in Names(d, secs) ==> Names(d', secs')[n] == Names(d, secs)[n]
  {
    if n in Names(d, secs) {
      NamesAt(d', secs', Names(d, secs)[n], n);
    }
  }

  lemma NamesAgree(d: Disk, secs: seq<nat>, d': Disk, secs': seq<nat>)
    requires DirOk(d, secs) && DirOk(d', secs')
    requires forall k, n :: Has(d, secs, k, n) <==> Has(d', secs', k, n)
    ensures Names(d', secs') == Names(d, secs)
  {
    hide *;
    forall n ensures (n in Names(d', secs') <==> n in Names(d, secs)) &&
                     (n in Names(d, secs) ==> Names(d', secs')[n] == Names(d, secs)[n]) {
      NameAgrees(d, secs, d', secs', n);
    }
  }

  /** What a scan up to the first end marker finds. */
  function Lookup(d: Disk, secs: seq<nat>, want: seq<byte>, from: nat): (r: Option<nat>)
    decreases |secs| * PER_SEC - from
  {
    if from >= |secs| * PER_SEC || Ent(d, secs, from)[0] == 0 then None
    else if Live(Ent(d, secs, from)) && NameOf(Ent(d, secs, from)) == want then Some(from)
    else Lookup(d, secs, want, from + 1)
  }

  /** The scan is lookup in the map. */
  lemma {:induction false} LookupFinds(d: Disk, secs: seq<nat>, want: seq<byte>, from: nat)
    requires DirOk(d, secs) && from <= |secs| * PER_SEC
    requires want in Names(d, secs) ==> from <= Names(d, secs)[want]
    ensures Lookup(d, secs, want, from) == if want in Names(d, secs) then Some(Names(d, secs)[want]) else None
    decreases |secs| * PER_SEC - from
  {
    hide Ent, EntOf, NameOf;
    if from < |secs| * PER_SEC && Ent(d, secs, from)[0] != 0 {
      if Live(Ent(d, secs, from)) {
        NamesAt(d, secs, from, NameOf(Ent(d, secs, from)));
      }
      if !(Live(Ent(d, secs, from)) && NameOf(Ent(d, secs, from)) == want) {
        LookupFinds(d, secs, want, from + 1);
      }
    }
  }

  /** One entry replaced. */
  ghost predicate EntReplaced(d: Disk, d': Disk, secs: seq<nat>, k: nat, e: seq<byte>)
    requires |e| == 32
  {
    && SectorsOf(d, secs) && SectorsOf(d', secs) && k < |secs| * PER_SEC
    && Ent(d', secs, k) == e
    && (forall j :: 0 <= j < |secs| * PER_SEC && j != k ==> Ent(d', secs, j) == Ent(d, secs, j))
  }

  /** Patching bytes inside entry `k`'s place replaces that entry only. */
  lemma PatchReplaces(d: Disk, secs: seq<nat>, k: nat, o: nat, p: seq<byte>)
    requires SectorsOf(d, secs) && k < |secs| * PER_SEC && o + |p| <= 32
    ensures var lba := secs[k / PER_SEC];
      var d' := d[lba := Patch(d[lba], k % PER_SEC * 32 + o, p)];
      EntReplaced(d, d', secs, k, Patch(Ent(d, secs, k), o, p))
  {
    var lba := secs[k / PER_SEC];
    var d' := d[lba := Patch(d[lba], k % PER_SEC * 32 + o, p)];
    forall j | 0 <= j < |secs| * PER_SEC && j != k ensures Ent(d', secs, j) == Ent(d, secs, j) {
      if j / PER_SEC == k / PER_SEC {
        assert j % PER_SEC != k % PER_SEC;
      }
    }
  }

  /** The first slot a new entry may use. */
  ghost predicate FirstFree(d: Disk, secs: seq<nat>, k: nat) {
    && k < |secs| * PER_SEC
    && Free(Ent(d, secs, k))
    && forall j :: 0 <= j < k ==> !Free(Ent(d, secs, j))
  }

  predicate Free(e: seq<byte>) requires |e| == 32 { e[0] == 0 || e[0] == 0xE5 }

  lemma CreatedDirOk(d: Disk, d': Disk, secs: seq<nat>, k: nat, e: seq<byte>)
    requires |e| == 32 && Live(e) && DirOk(d, secs) && FirstFree(d, secs, k) && EntReplaced(d, d', secs, k, e)
    requires NameOf(e) !in Names(d, secs)
    ensures DirOk(d', secs)
  {
    forall j | 0 <= j < |secs| * PER_SEC && j != k && Live(Ent(d, secs, j)) ensures NameOf(Ent(d, secs, j)) != NameOf(e)
    {
      NamesAt(d, secs, j, NameOf(Ent(d, secs, j)));
    }
  }

  /** Names other than those of the old and new entry are untouched by the replacement. */
  lemma OtherNames(d: Disk, d': Disk, secs: seq<nat>, k: nat, e: seq<byte>, n: seq<byte>)
    requires |e| == 32 && DirOk(d, secs) && DirOk(d', secs) && EntReplaced(d, d', secs, k, e)
    requires !Has(d, secs, k, n) && !Has(d', secs, k, n)
    ensures n in Names(d', secs) <==> n in Names(d, secs)
    ensures n in Names(d, secs) ==> Names(d', secs)[n] == Names(d, secs)[n]
  {
    NameAgrees(d, secs, d', secs, n);
  }

  /** Writing a fresh name into the first free slot adds exactly that name. */
  lemma EntryCreated(d: Disk, d': Disk, secs: seq<nat>, k: nat, e: seq<byte>)
    requires |e| == 32 && Live(e) && DirOk(d, secs) && FirstFree(d, secs, k) && EntReplaced(d, d', secs, k, e)
    requires NameOf(e) !in Names(d, secs)
    ensures DirOk(d', secs) && Names(d', secs) == Names(d, secs)[NameOf(e) := k]
  {
    CreatedDirOk(d, d', secs, k, e);
    NamesAt(d', secs, k, NameOf(e));
    var m, m', added := Names(d, secs), Names(d', secs), NameOf(e);
    forall n | n != added ensures (n in m' <==> n in m) && (n in m ==> m'[n] == m[n]) {
      OtherNames(d, d', secs, k, e, n);
    }
    MapAdded(m, m', added, k);
  }

  lemma MapAdded<K, V>(m: map<K, V>, m': map<K, V>, added: K, v: V)
    requires added in m' && m'[added] == v
    requires forall n :: n in m' || n in m ==> n != added ==> n in m' && n in m && m'[n] == m[n]
    ensures m' == m[added := v]
  {
  }

  lemma MapRemoved<K, V>(m: map<K, V>, m': map<K, V>, gone: K)
    requires gone !in m'
    requires forall n :: n in m' || n in m ==> n != gone ==> n in m' && n in m && m'[n] == m[n]
    ensures m' == m - {gone}
  {
  }

  lemma DeletedDirOk(d: Disk, d': Disk, secs: seq<nat>, k: nat, e: seq<byte>)
    requires |e| == 32 && e[0] == 0xE5 && DirOk(d, secs) && EntReplaced(d, d', secs, k, e) && Live(Ent(d, secs, k))
    ensures DirOk(d', secs)
  {
  }

  /** Marking an entry deleted removes exactly its name. */
  lemma EntryDeleted(d: Disk, d': Disk, secs: seq<nat>, k: nat, e: seq<byte>)
    requires |e| == 32 && e[0] == 0xE5 && DirOk(d, secs) && EntReplaced(d, d', secs, k, e) && Live(Ent(d, secs, k))
    ensures DirOk(d', secs) && Names(d', secs) == Names(d, secs) - {NameOf(Ent(d, secs, k))}
  {
    DeletedDirOk(d, d', secs, k, e);
    var m, m', gone := Names(d, secs), Names(d', secs), NameOf(Ent(d, secs, k));
    NamesAt(d, secs, k, gone);
    forall n | n != gone ensures (n in m' <==> n in m) && (n in m ==> m'[n] == m[n]) {
      OtherNames(d, d', secs, k, e, n);
    }
    if gone in m' {
      NamesAt(d, secs, m'[gone], gone);
    }
    MapRemoved(m, m', gone);
  }

  /** Changing an entry's fields behind its name and attribute changes no name. */
  lemma EntryUpdated(d: Disk, d': Disk, secs: seq<nat>, k: nat, e: seq<byte>)
    requires |e| == 32 && DirOk(d, secs) && EntReplaced(d, d', secs, k, e)
    requires e[..12] == Ent(d, secs, k)[..12]
    ensures DirOk(d', secs) && Names(d', secs) == Names(d, secs)
  {
    var was := Ent(d, secs, k);
    assert e[0] == e[..12][0] == was[0] && e[11] == e[..12][11] == was[11];
    assert NameOf(e) == e[..12][..11] == NameOf(was);
    NamesAgree(d, secs, d', secs);
  }

  /** A directory only depends on its own sectors. */
  lemma DirFrame(d: Disk, d': Disk, secs: seq<nat>)
    requires DirOk(d, secs) && |d'| == |d|
    requires forall i :: 0 <= i < |secs| ==> d'[secs[i]] == d[secs[i]]
    ensures DirOk(d', secs) && Names(d', secs) == Names(d, secs)
  {
    assert forall k :: 0 <= k < |secs| * PER_SEC ==> Ent(d', secs, k) == Ent(d, secs, k);
    NamesAgree(d, secs, d', secs);
  }

  /** Appending zeroed sectors to a directory changes no name. */
  lemma DirGrown(d: Disk, d': Disk, secs: seq<nat>, more: seq<nat>)
    requires DirOk(d, secs) && |d'| == |d| && SectorsOf(d', secs + more)
    requires forall i :: 0 <= i < |secs| ==> d'[secs[i]] == d[secs[i]]
    requires forall i :: 0 <= i < |more| ==> more[i] < |d'| && d'[more[i]] == seq(SEC, _ => 0)
    ensures DirOk(d', secs + more) && Names(d', secs + more) == Names(d, secs)
  {
    var all := secs + more;
    forall k | 0 <= k < |all| * PER_SEC
      ensures k < |secs| * PER_SEC ==> Ent(d', all, k) == Ent(d, secs, k)
      ensures k >= |secs| * PER_SEC ==> Ent(d', all, k)[0] == 0
    {
      if k >= |secs| * PER_SEC {
        assert all[k / PER_SEC] == more[k / PER_SEC - |secs|];
      }
    }
    NamesAgree(d, secs, d', all);
  }
}
