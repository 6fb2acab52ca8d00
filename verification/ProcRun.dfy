/** Whole runs of the process layer: what each program sees in memory is accounted for by the stores that were made. */
module ProcRun {
  import opened Wrappers
  import opened Bytes
  import opened Pages
  import opened ProcImages
  import opened ProcPlan
  import opened ProcTable
  import opened ElfFile
  import opened ProcKernel
  import opened ProcEntry

  /** What the running process asks for, or does to its image. */
  datatype Step = Start(file: Option<seq<byte>>) | WaitFor(pid: int) | Leave(code: int) | GiveBack(frame: Frame)
                | KillIt(target: int) | Put(a: nat, v: byte)

  /** Process `writer` stored `v`, and it went to offset `at` of the image of process `into`. */
  datatype Write = Write(writer: nat, into: nat, at: nat, v: byte)

  /** An image after the writes into it, in order. */
  function Replay(image: seq<byte>, log: seq<Write>, pid: nat): (r: seq<byte>)
    ensures |r| == |image|
  {
    if log == [] then image
    else
      var b, w := Replay(image, log[..|log| - 1], pid), log[|log| - 1];
      if w.into == pid && w.at < |b| then b[w.at := w.v] else b
  }

  /**
   * Every process that can still run sees the image it was loaded with, changed by the writes into it and by nothing
   * else.
   */
  ghost predicate Accounted(l: Layout, m: seq<byte>, ps: seq<Proc>, loaded: map<nat, seq<byte>>, log: seq<Write>) {
    forall j :: 0 <= j < |ps| && Alive(ps[j]) ==>
      ps[j].pid in loaded && Img(l, m, ps[j]) == Replay(loaded[ps[j].pid], log, ps[j].pid)
  }

  /** Only processes that were started are known, and written to. */
  ghost predicate Past(loaded: map<nat, seq<byte>>, log: seq<Write>, nextPid: nat) {
    (forall i :: 0 <= i < |log| ==> log[i].into < nextPid) && forall p :: p in loaded ==> 0 < p < nextPid
  }

  /** Every write went into the image of the process that stored. */
  ghost predicate OwnDoing(log: seq<Write>) { forall i :: 0 <= i < |log| ==> log[i].writer == log[i].into }

  ghost predicate Kept(k: Kernel, loaded: map<nat, seq<byte>>, log: seq<Write>)
    reads k, k.ram, k.pm, k.pm.cells, k.procs
  {
    k.Valid() && Accounted(k.l, k.ram.bytes, k.procs[..], loaded, log) && Past(loaded, log, k.nextPid)
  }

  /** The address lies where the image of row `i` is linked to. */
  predicate InReach(ps: seq<Proc>, i: nat, a: nat) {
    i < |ps| && Alive(ps[i]) && ps[i].image <= a < ps[i].image + Size(ps[i].pages)
  }

  /**
   * Where a store of the process in row `i` goes: into the image that lies at the address in memory, if there is one.
   */
  ghost function Hit(ps: seq<Proc>, i: nat, a: nat, v: byte): (w: seq<Write>)
    requires i < |ps|
  {
    if exists j: nat :: At(ps, j, a) then
      var j: nat :| At(ps, j, a);
      [Write(ps[i].pid, ps[j].pid, a - ps[j].image, v)]
    else []
  }

  /**
   * That is its own image, or nowhere if that one is evicted, if and only if no other image lies at the address in
   * memory.
   */
  lemma HitOwn(ps: seq<Proc>, nextPid: nat, i: nat, a: nat, v: byte)
    requires ImagesApart(ps) && PidsOk(ps, nextPid) && InReach(ps, i, a)
    requires forall j :: 0 <= j < |ps| && Alive(ps[j]) ==> Real(ps[j])
    ensures OwnDoing(Hit(ps, i, a, v)) <==> forall j :: 0 <= j < |ps| && j != i ==> !At(ps, j, a)
    ensures OwnDoing(Hit(ps, i, a, v)) ==>
      Hit(ps, i, a, v) == if ps[i].evicted then [] else [Write(ps[i].pid, ps[i].pid, a - ps[i].image, v)]
    ensures !OwnDoing(Hit(ps, i, a, v)) ==> ps[i].evicted
  {
    hide Size, PidsOk;
    assert ps[i].evicted <==> !At(ps, i, a);
    if j: nat :| At(ps, j, a) {
      HitAt(ps, i, j, a, v);
      if i != j {
        OthersPid(ps, nextPid, j);
        if !ps[i].evicted {
          OneAt(ps, i, j, a);
        }
        assert Hit(ps, i, a, v)[0].writer != Hit(ps, i, a, v)[0].into;
      }
      forall x | 0 <= x < |ps| && At(ps, x, a) ensures x == j {
        OneAt(ps, x, j, a);
      }
    }
  }

  lemma HitAt(ps: seq<Proc>, i: nat, j: nat, a: nat, v: byte)
    requires ImagesApart(ps) && At(ps, j, a) && i < |ps|
    ensures Hit(ps, i, a, v) == [Write(ps[i].pid, ps[j].pid, a - ps[j].image, v)]
  {
    var x: nat :| At(ps, x, a) && Hit(ps, i, a, v) == [Write(ps[i].pid, ps[x].pid, a - ps[x].image, v)];
    OneAt(ps, x, j, a);
  }

  ghost predicate StepOk(s: Step, top: nat) { s.Start? && s.file.Some? ==> Linkable(s.file.value, top) }

  // ---- what a run comes to ----

  /** The step took the one moment to the other. */
  ghost predicate Did(l: Layout, s: Step, a: Moment, b: Moment)
    requires a.current < |a.ps|
  {
    match s
    case Start(file) => b == StartedFrom(l, a, file)
    case WaitFor(pid) => b == WaitedFrom(a, pid)
    case Leave(code) => b == LeftFrom(a, code)
    case GiveBack(frame) => b == YieldedFrom(a, frame)
    case KillIt(pid) => KilledFrom(a, b, pid)
    case Put(_, _) => b == a
  }

  /** The step waits for a process that is no child, or kills one that waits: then those that wait are no line. */
  ghost predicate Upsets(s: Step, m: Moment)
    requires m.current < |m.ps|
  {
    match s
    case WaitFor(pid) =>
      var t := Target(m.ps, m.current, pid, 0);
      && t.Some? && m.ps[t.value].state != Zombie && |m.stack| < BLOCK_MAX
      && (|| t.value == m.current
          || (m.ps[t.value].ppid != m.ps[m.current].pid && (!m.ps[t.value].evicted || Comes(m.bits, m.ps, t.value))))
    case KillIt(pid) => pid > 1 && InLine(m.ps, m.stack, pid)
    case _ => false
  }

  /** Where the store of a step goes. */
  ghost function StoreOf(s: Step, m: Moment): seq<Write> {
    if s.Put? && InReach(m.ps, m.current, s.a) then Hit(m.ps, m.current, s.a, s.v) else []
  }

  /** The process a step starts, with the image its file has. */
  ghost function LoadOf(l: Layout, s: Step, m: Moment): map<nat, seq<byte>> {
    if s.Start? && s.file.Some? && m.current < |m.ps| && Loads(s.file.value)
       && StartedFrom(l, m, s.file).nextPid == m.nextPid + 1
    then map[m.nextPid := Linked(s.file.value).2] else map[]
  }

  /** All stores of a run, in order. */
  ghost function LogOf(steps: seq<Step>, hist: seq<Moment>): seq<Write>
    requires |steps| <= |hist|
  {
    var n := |steps| - 1;
    if n < 0 then [] else LogOf(steps[..n], hist) + StoreOf(steps[n], hist[n])
  }

  /** All processes a run started. */
  ghost function LoadedOf(l: Layout, steps: seq<Step>, hist: seq<Moment>): map<nat, seq<byte>>
    requires |steps| <= |hist|
  {
    var n := |steps| - 1;
    if n < 0 then map[] else LoadedOf(l, steps[..n], hist) + LoadOf(l, steps[n], hist[n])
  }

  /** Whom a step leaves to be entered anew, and how: a process it starts, or one that gives control back. */
  ghost function PoiseOf(l: Layout, s: Step, m: Moment): map<nat, Poise> {
    if m.current >= |m.ps| then map[]
    else match s
      case Start(file) =>
        if file.Some? && StartedFrom(l, m, file).nextPid > m.nextPid
        then map[m.nextPid := Fresh(EntryPoint(file.value))] else map[]
      case GiveBack(frame) => if m.stack != [] then map[m.ps[m.current].pid := Given(frame)] else map[]
      case _ => map[]
  }

  /** How each process that a run started is to be entered next. */
  ghost function PoisesOf(l: Layout, steps: seq<Step>, hist: seq<Moment>): map<nat, Poise>
    requires |steps| <= |hist|
  {
    var n := |steps| - 1;
    if n < 0 then map[] else PoisesOf(l, steps[..n], hist) + PoiseOf(l, steps[n], hist[n])
  }

  /** A child that a step hands control to is entered at its file's entry, or where it gave control back last. */
  ghost predicate EntersRight(l: Layout, s: Step, a: Moment, b: Moment, poise: map<nat, Poise>, first: nat) {
    s.WaitFor? && b.stack == a.stack + [a.current] && a.current < |a.ps| && b.current < |a.ps|
      && a.ps[b.current].ppid == a.ps[a.current].pid && a.ps[b.current].pid >= first ==>
      a.ps[b.current].pid in poise && Enters(l, a.ps[b.current], poise[a.ps[b.current].pid])
  }

  lemma StepPoised(l: Layout, s: Step, a: Moment, b: Moment, poise: map<nat, Poise>, first: nat)
    requires a.current < |a.ps| && Did(l, s, a, b) && Poised(l, a, poise) && Known(poise, first, a.nextPid)
    requires TableOk(a.ps, a.nextPid, a.stack + [a.current]) && forall i :: 0 <= i < |a.stack| ==> a.stack[i] < |a.ps|
    ensures Poised(l, b, poise + PoiseOf(l, s, a)) && Known(poise + PoiseOf(l, s, a), first, b.nextPid)
    ensures EntersRight(l, s, a, b, poise, first)
  {
    hide Poised, Enters, StartedFrom, WaitedFrom, LeftFrom, YieldedFrom, KilledFrom, TableOk, PidsOk;
    LineLast(a.ps, a.nextPid, a.stack + [a.current]);
    PidsOf(a.ps, a.nextPid, a.stack + [a.current]);
    NextPids(l, s, a, b);
    assert poise + map[] == poise;
    match s {
      case Start(file) =>
        StartedPoised(l, a, file, poise);
        if file.Some? {
          assert poise + map[a.nextPid := Fresh(EntryPoint(file.value))]
            == poise[a.nextPid := Fresh(EntryPoint(file.value))];
        }
      case WaitFor(pid) =>
        WaitedPoised(l, a, pid, poise);
        EntersChild(l, a, pid, poise);
        KnownChild(a, b.current, poise, first);
      case Leave(code) => LeftPoised(l, a, code, poise);
      case GiveBack(frame) =>
        YieldedPoised(l, a, frame, poise);
        var c := a.ps[a.current].pid;
        assert poise + map[c := Given(frame)] == poise[c := Given(frame)];
      case KillIt(pid) => KilledPoised(l, a, b, pid, poise);
      case Put(_, _) =>
    }
  }

  /** Starting hands out one pid at most, and nothing else hands out any. */
  lemma NextPids(l: Layout, s: Step, a: Moment, b: Moment)
    requires a.current < |a.ps| && Did(l, s, a, b)
    ensures b.nextPid == a.nextPid || (s.Start? && b.nextPid == a.nextPid + 1)
  {
    hide SpawnPlan, BackPlan, YieldPlan, BroughtIn, Target, Reaped, FreedBy, KilledAll;
  }

  lemma KnownChild(m: Moment, i: nat, poise: map<nat, Poise>, first: nat)
    requires PidsOk(m.ps, m.nextPid) && Known(poise, first, m.nextPid)
    ensures i < |m.ps| && Real(m.ps[i]) && m.ps[i].pid >= first ==> m.ps[i].pid in poise
  {
  }

  lemma EntersChild(l: Layout, a: Moment, pid: int, poise: map<nat, Poise>)
    requires a.current < |a.ps| && Poised(l, a, poise) && TableOk(a.ps, a.nextPid, a.stack + [a.current])
    ensures var b := WaitedFrom(a, pid);
      b.stack == a.stack + [a.current] && b.current < |a.ps| && a.ps[b.current].ppid == a.ps[a.current].pid ==>
        && Real(a.ps[b.current])
        && (a.ps[b.current].pid in poise ==> Enters(l, a.ps[b.current], poise[a.ps[b.current].pid]))
  {
    hide TableOk, Enters, BroughtIn, Reaped;
    var t := Target(a.ps, a.current, pid, 0);
    var b := WaitedFrom(a, pid);
    if b.stack == a.stack + [a.current] && t.Some? && a.ps[b.current].ppid == a.ps[a.current].pid {
      assert |b.stack| == |a.stack| + 1 && b.current == t.value;
      ChildIdle(a, b.current);
    }
  }

  /** Whoever was started in the run is entered where it should be, each time. */
  ghost predicate AllEnterRight(l: Layout, steps: seq<Step>, hist: seq<Moment>) {
    && |hist| == |steps| + 1
    && forall i :: 0 <= i < |steps| ==>
      EntersRight(l, steps[i], hist[i], hist[i + 1], PoisesOf(l, steps[..i], hist), hist[0].nextPid)
  }

  lemma NobodyPoised(l: Layout, hist: seq<Moment>)
    requires |hist| == 1
    ensures Poised(l, hist[0], map[]) && Known(map[], hist[0].nextPid, hist[0].nextPid)
    ensures PoisesOf(l, [], hist) == map[] && AllEnterRight(l, [], hist)
  {
  }

  lemma EnterOn(l: Layout, steps: seq<Step>, n: nat, hist: seq<Moment>, m: Moment)
    requires n < |steps| && AllEnterRight(l, steps[..n], hist)
    requires EntersRight(l, steps[n], hist[n], m, PoisesOf(l, steps[..n], hist), hist[0].nextPid)
    ensures AllEnterRight(l, steps[..n + 1], hist + [m])
    ensures PoisesOf(l, steps[..n + 1], hist + [m]) == PoisesOf(l, steps[..n], hist) + PoiseOf(l, steps[n], hist[n])
  {
    hide EntersRight, PoiseOf, PoisesOf;
    var h, all := hist + [m], steps[..n + 1];
    assert all[..n] == steps[..n];
    forall i | 0 <= i <= n ensures PoisesOf(l, all[..i], h) == PoisesOf(l, steps[..n][..i], hist) {
      assert all[..i] == steps[..n][..i];
      SamePoises(l, all[..i], hist, h);
    }
    assert steps[..n][..n] == steps[..n];
    LastPoise(l, all, h);
    forall i | 0 <= i <= n
      ensures EntersRight(l, all[i], h[i], h[i + 1], PoisesOf(l, all[..i], h), h[0].nextPid)
    {
      if i < n {
        assert steps[..n][i] == all[i];
      }
    }
  }

  lemma LastPoise(l: Layout, steps: seq<Step>, hist: seq<Moment>)
    requires 0 < |steps| <= |hist|
    ensures var n := |steps| - 1;
      PoisesOf(l, steps, hist) == PoisesOf(l, steps[..n], hist) + PoiseOf(l, steps[n], hist[n])
  {
    hide PoiseOf;
  }

  lemma {:induction false} SamePoises(l: Layout, steps: seq<Step>, hist: seq<Moment>, hist': seq<Moment>)
    requires |steps| <= |hist| <= |hist'| && hist == hist'[..|hist|]
    ensures PoisesOf(l, steps, hist') == PoisesOf(l, steps, hist)
    decreases |steps|
  {
    hide PoiseOf;
    if steps != [] {
      SamePoises(l, steps[..|steps| - 1], hist, hist');
    }
  }

  /** Each step took its moment to the next. */
  ghost predicate Ran(l: Layout, steps: seq<Step>, hist: seq<Moment>) {
    && |hist| == |steps| + 1
    && forall i :: 0 <= i < |steps| ==> hist[i].current < |hist[i].ps| && Did(l, steps[i], hist[i], hist[i + 1])
  }

  ghost predicate Sound(m: Moment) {
    && m.current < |m.ps| && ImagesApart(m.ps) && PidsOk(m.ps, m.nextPid)
    && forall j :: 0 <= j < |m.ps| && Alive(m.ps[j]) ==> Real(m.ps[j])
  }

  /** No store of the run is made where another process's image lies in memory. */
  ghost predicate AllPrivate(steps: seq<Step>, hist: seq<Moment>)
    requires |steps| <= |hist|
  {
    forall i :: 0 <= i < |steps| && steps[i].Put? ==> Private(hist[i], steps[i].a)
  }

  predicate Private(m: Moment, a: nat) {
    InReach(m.ps, m.current, a) ==> forall j :: 0 <= j < |m.ps| && j != m.current ==> !At(m.ps, j, a)
  }

  /** Every store of a run was its own process's doing if and only if none was made where another image lay. */
  lemma {:induction false} RunPrivate(steps: seq<Step>, hist: seq<Moment>)
    requires |steps| <= |hist| && forall i :: 0 <= i < |steps| ==> Sound(hist[i])
    ensures OwnDoing(LogOf(steps, hist)) <==> AllPrivate(steps, hist)
    decreases |steps|
  {
    hide Sound, StoreOf, Private;
    if steps != [] {
      var n := |steps| - 1;
      RunPrivate(steps[..n], hist);
      StorePrivately(steps[n], hist[n]);
      OwnBoth(LogOf(steps[..n], hist), StoreOf(steps[n], hist[n]));
      assert forall i :: 0 <= i < n ==> steps[..n][i] == steps[i];
    }
  }

  lemma StorePrivately(s: Step, m: Moment)
    requires Sound(m)
    ensures OwnDoing(StoreOf(s, m)) <==> (s.Put? ==> Private(m, s.a))
  {
    hide ImagesApart, PidsOk, Hit;
    if s.Put? && InReach(m.ps, m.current, s.a) {
      HitOwn(m.ps, m.nextPid, m.current, s.a, s.v);
    }
  }

  lemma OwnBoth(a: seq<Write>, b: seq<Write>)
    ensures OwnDoing(a + b) <==> OwnDoing(a) && OwnDoing(b)
  {
    forall i | 0 <= i < |b| && OwnDoing(a + b) ensures b[i].writer == b[i].into {
      assert (a + b)[|a| + i] == b[i];
    }
    forall i | 0 <= i < |a| && OwnDoing(a + b) ensures a[i].writer == a[i].into {
      assert (a + b)[i] == a[i];
    }
  }

  /** One more step. */
  lemma RanOn(l: Layout, steps: seq<Step>, n: nat, hist: seq<Moment>, m: Moment)
    requires n < |steps| && Ran(l, steps[..n], hist) && hist[n].current < |hist[n].ps| && Did(l, steps[n], hist[n], m)
    ensures var h := hist + [m];
      && Ran(l, steps[..n + 1], h) && LogOf(steps[..n + 1], h) == LogOf(steps[..n], hist) + StoreOf(steps[n], hist[n])
      && LoadedOf(l, steps[..n + 1], h) == LoadedOf(l, steps[..n], hist) + LoadOf(l, steps[n], hist[n])
  {
    hide Did, StoreOf, LoadOf;
    assert steps[..n + 1][..n] == steps[..n];
    SameStart(l, steps[..n], hist, hist + [m]);
    forall i | 0 <= i < n + 1 ensures Did(l, steps[i], (hist + [m])[i], (hist + [m])[i + 1]) {
      if i < n {
        assert steps[..n][i] == steps[i];
      }
    }
  }

  lemma {:induction false} SameStart(l: Layout, steps: seq<Step>, hist: seq<Moment>, hist': seq<Moment>)
    requires |steps| <= |hist| <= |hist'| && hist == hist'[..|hist|]
    ensures LogOf(steps, hist') == LogOf(steps, hist) && LoadedOf(l, steps, hist') == LoadedOf(l, steps, hist)
    decreases |steps|
  {
    hide StoreOf, LoadOf;
    if steps != [] {
      SameStart(l, steps[..|steps| - 1], hist, hist');
    }
  }

  /**
   * Runs a program of steps from a state where nothing is loaded, up to the first one that upsets those that wait. What
   * the stores went into and what was loaded follows from the steps and the tables they met, and accounts for every
   * image.
   */
  method Run(k: Kernel, steps: seq<Step>) returns (n: nat, ghost hist: seq<Moment>)
    requires k.Valid() && k.l.base <= USER_LO && forall j :: 0 <= j < k.procs.Length ==> !Alive(k.procs[j])
    requires forall s :: s in steps ==> StepOk(s, |k.ram.bytes|)
    modifies k, k.ram, k.procs, k.pm.cells
    ensures k.Mem() && k.l == old(k.l) && n <= |steps| && Ran(k.l, steps[..n], hist)
    ensures hist[0] == old(k.Now()) && hist[n] == k.Now() && forall i :: 0 <= i <= n ==> Sound(hist[i])
    ensures forall i :: 0 <= i < n - 1 ==> !Upsets(steps[i], hist[i])
    ensures n < |steps| ==> n > 0 && Upsets(steps[n - 1], hist[n - 1])
    ensures k.Valid() <==> n == 0 || !Upsets(steps[n - 1], hist[n - 1])
    ensures Accounted(k.l, k.ram.bytes, k.procs[..], LoadedOf(k.l, steps[..n], hist), LogOf(steps[..n], hist))
    ensures AllEnterRight(k.l, steps[..n], hist)
  {
    hide MemOk, TableOk, Img, StepOk, PageMap.Bits, Did, Upsets, Accounted, Past, LogOf, LoadedOf, StoreOf, LoadOf,
         Sound, Poised, Known, PoisesOf, EntersRight, AllEnterRight;
    n, hist := 0, [k.Now()];
    ghost var loaded, log, poise := map[], [], map[];
    var ok := true;
    assert steps[..0] == [];
    NothingRan(k.l, hist);
    NothingLoaded(k.l, k.ram.bytes, k.procs[..], k.nextPid);
    PidsOf(k.procs[..], k.nextPid, k.stack + [k.current]);
    SoundNow(k, loaded, log);
    NobodyPoised(k.l, hist);
    while n < |steps| && ok
      invariant n <= |steps| && k.l == old(k.l) && |k.ram.bytes| == |old(k.ram.bytes)| && Ran(k.l, steps[..n], hist)
      invariant hist[0] == old(k.Now()) && k.Mem() && hist[n] == k.Now() && forall i :: 0 <= i <= n ==> Sound(hist[i])
      invariant forall i :: 0 <= i < n - 1 ==> !Upsets(steps[i], hist[i])
      invariant (ok <==> k.Valid()) && (ok <==> n == 0 || !Upsets(steps[n - 1], hist[n - 1]))
      invariant Accounted(k.l, k.ram.bytes, k.procs[..], loaded, log) && Past(loaded, log, k.nextPid)
      invariant loaded == LoadedOf(k.l, steps[..n], hist) && log == LogOf(steps[..n], hist)
      invariant poise == PoisesOf(k.l, steps[..n], hist) && AllEnterRight(k.l, steps[..n], hist)
      invariant Poised(k.l, hist[n], poise) && Known(poise, hist[0].nextPid, hist[n].nextPid)
    {
      assert steps[n] in steps;
      ghost var was, m := hist, k.Now();
      ok, loaded, log := Do(k, steps[n], loaded, log);
      RanOn(k.l, steps, n, was, k.Now());
      StepPoised(k.l, steps[n], m, k.Now(), poise, was[0].nextPid);
      EnterOn(k.l, steps, n, was, k.Now());
      poise := poise + PoiseOf(k.l, steps[n], m);
      SoundNow(k, loaded, log);
      hist := was + [k.Now()];
      n := n + 1;
    }
  }

  lemma NothingRan(l: Layout, hist: seq<Moment>)
    requires |hist| == 1
    ensures Ran(l, [], hist) && LogOf([], hist) == [] && LoadedOf(l, [], hist) == map[]
  {
  }

  lemma NothingLoaded(l: Layout, m: seq<byte>, ps: seq<Proc>, nextPid: nat)
    requires forall j :: 0 <= j < |ps| ==> !Alive(ps[j])
    ensures Accounted(l, m, ps, map[], []) && Past(map[], [], nextPid)
  {
  }

  lemma SoundNow(k: Kernel, loaded: map<nat, seq<byte>>, log: seq<Write>)
    requires k.Mem() && PidsOk(k.procs[..], k.nextPid) && k.current < k.procs.Length
    requires Accounted(k.l, k.ram.bytes, k.procs[..], loaded, log) && Past(loaded, log, k.nextPid)
    ensures Sound(k.Now())
  {
    hide PidsOk, ImagesApart, RowsOk, OwnersApart, Marked, LentOk, PageMap.Bits, Img;
  }

  /** One step. A store goes where the address leads; nothing else writes. */
  method Do(k: Kernel, s: Step, ghost loaded: map<nat, seq<byte>>, ghost log: seq<Write>)
    returns (ok: bool, ghost loaded': map<nat, seq<byte>>, ghost log': seq<Write>)
    requires Kept(k, loaded, log) && k.l.base <= USER_LO && StepOk(s, |k.ram.bytes|)
    modifies k, k.ram, k.procs, k.pm.cells
    ensures k.Mem() && k.current < k.procs.Length && PidsOk(k.procs[..], k.nextPid)
    ensures Accounted(k.l, k.ram.bytes, k.procs[..], loaded', log') && Past(loaded', log', k.nextPid)
    ensures old(k.Now()).current < |old(k.Now()).ps| && Did(k.l, s, old(k.Now()), k.Now())
    ensures (ok <==> k.Valid()) && (ok <==> !Upsets(s, old(k.Now())))
    ensures |k.ram.bytes| == |old(k.ram.bytes)| && k.l == old(k.l)
    ensures loaded' == loaded + LoadOf(k.l, s, old(k.Now())) && log' == log + StoreOf(s, old(k.Now()))
  {
    hide MemOk, TableOk, PidsOk, Img, Survive, KeptBut, Linked, Loads, Spans, PageMap.Bits, Replay, Hit, Past,
         Accounted, StartedFrom, WaitedFrom, LeftFrom, YieldedFrom, KilledFrom, InLine, Target, Comes;
    loaded', log', ok := loaded, log, true;
    ghost var m0, ps0 := k.ram.bytes, k.procs[..];
    ghost var was := k.Now();
    match s {
      case Start(file) =>
        loaded' := StartStep(k, file, loaded, log);
      case WaitFor(pid) =>
        ok := WaitStep(k, pid, loaded, log);
      case Leave(code) =>
        var _, _ := k.Exit(code);
        SurviveOwn(k.l, m0, ps0, k.ram.bytes, k.procs[..], loaded, log);
      case GiveBack(frame) =>
        var _ := k.YieldToParent(frame);
        SurviveOwn(k.l, m0, ps0, k.ram.bytes, k.procs[..], loaded, log);
      case KillIt(pid) =>
        var waits := Waits(k, pid);
        var r := k.Kill(pid);
        ok := r == -1 || !waits;
        if waits {
          WaitsThere(ps0, was.nextPid, was.stack, was.current, pid);
        }
        SurviveOwn(k.l, m0, ps0, k.ram.bytes, k.procs[..], loaded, log);
      case Put(a, v) =>
        var p := k.procs[k.current];
        if Alive(p) && p.image <= a < p.image + Size(p.pages) {
          PutStep(k.l, m0, k.pm.Bits(), ps0, k.current, a, v, loaded, log, k.nextPid, k.stack + [k.current]);
          log' := log + Hit(ps0, k.current, a, v);
          k.Store(a, v);
        }
    }
    if ok {
      PidsOf(k.procs[..], k.nextPid, k.stack + [k.current]);
    }
  }

  lemma OwnParent(ps: seq<Proc>, nextPid: nat, line: seq<nat>)
    requires TableOk(ps, nextPid, line)
    ensures var cur := line[|line| - 1]; cur < |ps| && ps[cur].ppid != ps[cur].pid && ps[cur].state != Zombie
  {
    LineLast(ps, nextPid, line);
  }

  /** Waiting, and whether those that wait are still a line. */
  method WaitStep(k: Kernel, pid: int, ghost loaded: map<nat, seq<byte>>, ghost log: seq<Write>) returns (ok: bool)
    requires Kept(k, loaded, log)
    modifies k, k.ram, k.procs, k.pm.cells
    ensures k.Mem() && k.current < k.procs.Length && PidsOk(k.procs[..], k.nextPid) && k.nextPid == old(k.nextPid)
    ensures Accounted(k.l, k.ram.bytes, k.procs[..], loaded, log)
    ensures old(k.Now()).current < |old(k.Now()).ps| && k.Now() == WaitedFrom(old(k.Now()), pid)
    ensures (ok <==> k.Valid()) && (ok <==> !Upsets(WaitFor(pid), old(k.Now())))
    ensures |k.ram.bytes| == |old(k.ram.bytes)| && k.l == old(k.l)
  {
    hide MemOk, TableOk, Img, Survive, PageMap.Bits, Past, Accounted, WaitedFrom;
    ghost var m0, ps0 := k.ram.bytes, k.procs[..];
    var cur, me, full := k.current, k.procs[k.current].pid, |k.stack| == BLOCK_MAX;
    OwnParent(ps0, k.nextPid, k.stack + [k.current]);
    var w := k.Wait(pid);
    if w.Switched? {
      StaysRows(Entered(ps0, cur, w.child), k.procs[..]);
    }
    ok := match w
      case Switched(c, _) => k.procs[c].ppid == me
      case NotYet(c) => c != cur || full
      case _ => true;
    SurviveOwn(k.l, m0, ps0, k.ram.bytes, k.procs[..], loaded, log);
  }

  /** The process waits for another one. */
  method Waits(k: Kernel, pid: int) returns (w: bool)
    requires k.Valid()
    ensures w <==> InLine(k.procs[..], k.stack, pid)
  {
    hide MemOk, TableOk, PageMap.Bits;
    w := false;
    for i := 0 to |k.stack|
      invariant w <==> exists m :: 0 <= m < i && k.procs[k.stack[m]].pid == pid
    {
      if k.procs[k.stack[i]].pid == pid {
        w := true;
      }
    }
  }

  lemma SurviveOwn(l: Layout, m: seq<byte>, ps: seq<Proc>, m': seq<byte>, ps': seq<Proc>, loaded: map<nat, seq<byte>>,
                   log: seq<Write>)
    requires Accounted(l, m, ps, loaded, log) && Survive(l, m, ps, m', ps')
    ensures Accounted(l, m', ps', loaded, log)
  {
    hide Img, Replay, Alive;
  }

  /** Starting a program adds what was loaded for it. */
  method StartStep(k: Kernel, file: Option<seq<byte>>, ghost loaded: map<nat, seq<byte>>, ghost log: seq<Write>)
    returns (ghost loaded': map<nat, seq<byte>>)
    requires k.Valid() && k.l.base <= USER_LO && (file.Some? ==> Linkable(file.value, |k.ram.bytes|))
    requires Accounted(k.l, k.ram.bytes, k.procs[..], loaded, log) && Past(loaded, log, k.nextPid)
    modifies k.ram`bytes, k`nextPid, k.procs, k.pm.cells
    ensures k.Valid() && |k.ram.bytes| == |old(k.ram.bytes)|
    ensures Accounted(k.l, k.ram.bytes, k.procs[..], loaded', log) && Past(loaded', log, k.nextPid)
    ensures old(k.Now()).current < |old(k.Now()).ps| && k.Now() == StartedFrom(k.l, old(k.Now()), file)
    ensures loaded' == loaded + LoadOf(k.l, Start(file), old(k.Now()))
  {
    hide MemOk, Img, KeptBut, Linked, Loads, Spans, PageMap.Bits, Replay, Accounted, Past, StartedFrom, SpawnPlan,
         LoadOf, RunsOn, TableOk, PidsOk, Linkable, Parsed, EntryOf, CannotBringIn;
    ghost var m0, ps0, n0 := k.ram.bytes, k.procs[..], k.nextPid;
    ghost var was := k.Now();
    PidsOf(ps0, n0, k.stack + [k.current]);
    var r, row := k.Spawn(file);
    LoadIs(k.l, was, file, r);
    loaded' := loaded;
    if r > 0 {
      PastNot(loaded, log, n0);
      loaded' := loaded[r := Linked(file.value).2];
      assert loaded' == loaded + map[n0 := Linked(file.value).2];
      StartedOwn(k.l, m0, ps0, k.ram.bytes, k.procs[..], loaded, log, n0, row, Linked(file.value).2);
    } else {
      FailedOwn(k.l, m0, ps0, k.ram.bytes, k.procs[..], loaded, log, row);
    }
  }

  lemma LoadIs(l: Layout, m: Moment, file: Option<seq<byte>>, r: int)
    requires m.current < |m.ps| && (r > 0 ==> file.Some? && Loads(file.value))
    requires StartedFrom(l, m, file).nextPid == if r > 0 then m.nextPid + 1 else m.nextPid
    ensures LoadOf(l, Start(file), m) == if r > 0 then map[m.nextPid := Linked(file.value).2] else map[]
  {
    hide StartedFrom, Loads, Linked;
  }

  lemma FailedOwn(l: Layout, m: seq<byte>, ps: seq<Proc>, m': seq<byte>, ps': seq<Proc>, loaded: map<nat, seq<byte>>,
                  log: seq<Write>, row: nat)
    requires Accounted(l, m, ps, loaded, log) && KeptBut(l, m, ps, m', ps', row)
    requires (row < |ps'| ==> ps'[row].pages == 0)
    ensures Accounted(l, m', ps', loaded, log)
  {
    hide Img, Replay;
  }

  lemma StartedOwn(l: Layout, m: seq<byte>, ps: seq<Proc>, m': seq<byte>, ps': seq<Proc>, loaded: map<nat, seq<byte>>,
                   log: seq<Write>, pid: nat, row: nat, image: seq<byte>)
    requires Accounted(l, m, ps, loaded, log) && KeptBut(l, m, ps, m', ps', row) && PidsOk(ps, pid)
    requires Past(loaded, log, pid) && pid > 0
    requires row < |ps'| && ps'[row].pid == pid && Img(l, m', ps'[row]) == image
    ensures Accounted(l, m', ps', loaded[pid := image], log) && Past(loaded[pid := image], log, pid + 1)
  {
    NeverWrote(image, log, pid);
    hide Img, Replay;
    forall j | 0 <= j < |ps| && j != row && Alive(ps'[j]) ensures Alive(ps[j]) && ps'[j].pid == ps[j].pid != pid {
      assert Stays(ps[j], ps'[j]);
    }
  }

  lemma {:induction false} NeverWrote(image: seq<byte>, log: seq<Write>, pid: nat)
    requires forall i :: 0 <= i < |log| ==> log[i].into < pid
    ensures Replay(image, log, pid) == image
  {
    if log != [] {
      NeverWrote(image, log[..|log| - 1], pid);
    }
  }

  /** A store is one more write into the image it hits. */
  lemma PutStep(l: Layout, m: seq<byte>, bits: seq<bool>, ps: seq<Proc>, i: nat, a: nat, v: byte,
                loaded: map<nat, seq<byte>>, log: seq<Write>, nextPid: nat, line: seq<nat>)
    requires MemOk(l, m, bits, ps) && TableOk(ps, nextPid, line) && InReach(ps, i, a)
    requires Accounted(l, m, ps, loaded, log) && Past(loaded, log, nextPid)
    ensures a < |m| && Accounted(l, m[a := v], ps, loaded, log + Hit(ps, i, a, v))
    ensures Past(loaded, log + Hit(ps, i, a, v), nextPid)
  {
    hide Img, Marked, RowsOk, OwnersApart, LentOk, Size, PidsOk, LineOk, OneRuns, Replay, Layout.Valid, Layout.Addr;
    StoreFrame(l, m, bits, ps, i, a, v);
    if j: nat :| At(ps, j, a) {
      HitAt(ps, i, j, a, v);
      assert ps[j].pid in loaded;
      OthersPid(ps, nextPid, j);
      RowYounger(ps, nextPid, j);
      forall x | 0 <= x < |ps| && At(ps, x, a) ensures x == j {
        OneAt(ps, x, j, a);
      }
      OneWrite(l, m, m[a := v], ps, j, a, v, loaded, log, ps[i].pid);
    } else {
      assert log + [] == log;
    }
  }

  lemma OneWrite(l: Layout, m: seq<byte>, m': seq<byte>, ps: seq<Proc>, j: nat, a: nat, v: byte,
                 loaded: map<nat, seq<byte>>, log: seq<Write>, writer: nat)
    requires Accounted(l, m, ps, loaded, log) && At(ps, j, a)
    requires forall x :: 0 <= x < |ps| && Alive(ps[x]) && x != j ==>
      ps[x].pid != ps[j].pid && Img(l, m', ps[x]) == Img(l, m, ps[x])
    requires a - ps[j].image < |Img(l, m, ps[j])| && Img(l, m', ps[j]) == Img(l, m, ps[j])[a - ps[j].image := v]
    ensures Accounted(l, m', ps, loaded, log + [Write(writer, ps[j].pid, a - ps[j].image, v)])
  {
    hide Img, Size;
    var w := Write(writer, ps[j].pid, a - ps[j].image, v);
    assert (log + [w])[..|log|] == log;
  }

  lemma PastNot(loaded: map<nat, seq<byte>>, log: seq<Write>, nextPid: nat)
    requires Past(loaded, log, nextPid)
    ensures nextPid !in loaded
  {
  }

  lemma RowYounger(ps: seq<Proc>, nextPid: nat, j: nat)
    requires PidsOk(ps, nextPid) && j < |ps| && Real(ps[j])
    ensures ps[j].pid < nextPid
  {
  }

  lemma OthersPid(ps: seq<Proc>, nextPid: nat, i: nat)
    requires PidsOk(ps, nextPid) && i < |ps| && Real(ps[i])
    ensures forall j :: 0 <= j < |ps| && j != i && ps[j].used ==> ps[j].pid != ps[i].pid
  {
  }
}
