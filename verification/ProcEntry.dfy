/** Where processes are entered: at their file's entry the first time, and where they gave control back after that. */
module ProcEntry {
  import opened Wrappers
  import opened Bytes
  import opened Pages
  import opened ProcImages
  import opened ProcPlan
  import opened ProcTable
  import opened ElfFile
  import opened ProcKernel

  /** What a process that does not run is to go on with. */
  datatype Poise = Fresh(entry: nat) | Given(frame: Frame)

  /** The process would be entered so: at the entry on an empty stack, or with all registers as they were. */
  predicate Enters(l: Layout, p: Proc, q: Poise) {
    match q
    case Fresh(entry) =>
      p.ustack.Some? && EntryOf(p) == Jump(entry, l.Addr(p.ustack.value) + Size(USTACK_PAGES) - 32, 0)
    case Given(frame) => EntryOf(p) == Resume(frame)
  }

  /** Who neither runs nor waits for another one, and can still run. */
  ghost predicate Idle(m: Moment, i: nat)
    requires i < |m.ps|
  {
    Real(m.ps[i]) && m.ps[i].state != Zombie && i !in m.stack + [m.current]
  }

  ghost predicate Poised(l: Layout, m: Moment, poise: map<nat, Poise>) {
    forall i :: 0 <= i < |m.ps| && m.ps[i].pid in poise && Idle(m, i) ==> Enters(l, m.ps[i], poise[m.ps[i].pid])
  }

  /** All processes from `first` on are known, and none that was not started. */
  ghost predicate Known(poise: map<nat, Poise>, first: nat, nextPid: nat) {
    forall p :: (first <= p < nextPid ==> p in poise) && (p in poise ==> p < nextPid)
  }

  // ---- what keeps an entry ----

  predicate SameEntry(p: Proc, q: Proc) {
    && SameId(p, q) && q.entry == p.entry && q.eip == p.eip && q.esp == p.esp && q.eax == p.eax && q.frame == p.frame
    && q.ustack == p.ustack
  }

  ghost predicate SameEntries(ps: seq<Proc>, ps': seq<Proc>) {
    |ps'| == |ps| && forall j :: 0 <= j < |ps| ==> SameEntry(ps[j], ps'[j])
  }

  lemma {:induction false} SweptEntries(bits: seq<bool>, ps: seq<Proc>, lo: nat, hi: nat, skip: nat, k: nat)
    ensures SameEntries(ps, SweptOut(bits, ps, lo, hi, skip, k).ps)
    decreases |ps| - k
  {
    hide FirstFit, WithRun, InWay;
    if k < |ps| {
      if InWay(ps, lo, hi, skip, k) {
        var s := FirstFit(bits, ps[k].pages, 0);
        if s.Some? {
          SweptEntries(WithRun(bits, s.value, ps[k].pages, true), ps[k := Out(ps[k], s.value)], lo, hi, skip, k + 1);
        }
      } else {
        SweptEntries(bits, ps, lo, hi, skip, k + 1);
      }
    }
  }

  lemma BroughtEntries(bits: seq<bool>, ps: seq<Proc>, i: nat)
    requires i < |ps|
    ensures SameEntries(ps, BroughtIn(bits, ps, i).ps)
  {
    hide SweptOut, WithRun, Comes, Size;
    SweptEntries(bits, ps, ps[i].image, ps[i].image + Size(ps[i].pages), i, 0);
  }

  /** Nobody new is idle, and who is has the entry it had. */
  lemma PoisedStill(l: Layout, a: Moment, b: Moment, poise: map<nat, Poise>)
    requires Poised(l, a, poise) && |b.ps| == |a.ps|
    requires forall i :: 0 <= i < |b.ps| && Idle(b, i) ==>
      b.ps[i].pid in poise ==> Idle(a, i) && SameEntry(a.ps[i], b.ps[i])
    ensures Poised(l, b, poise)
  {
  }

  // ---- the steps ----

  lemma RanPoised(l: Layout, m: Moment, i: nat, poise: map<nat, Poise>)
    requires Poised(l, m, poise) && m.current < |m.ps| && i < |m.ps| && m.ps[m.current].state == Running
    requires m.ps[i].state != Zombie
    ensures Poised(l, RunFrom(m, i), poise)
  {
    hide BroughtIn, Enters;
    var ps := Handed(m.ps, m.current, i);
    BroughtEntries(m.bits, ps, i);
    var b := RunFrom(m, i);
    if |m.stack| < BLOCK_MAX {
      forall j | 0 <= j < |b.ps| && Idle(b, j) && b.ps[j].pid in poise ensures Enters(l, b.ps[j], poise[b.ps[j].pid]) {
        assert SameEntry(ps[j], BroughtIn(m.bits, ps, i).ps[j]);
        if b.stack == m.stack {
          assert Idle(m, j);
        } else {
          assert j != i && j != m.current && j !in m.stack + [m.current];
          assert Idle(m, j);
        }
        EntersSame(l, m.ps[j], b.ps[j], poise[b.ps[j].pid]);
      }
    }
  }

  lemma EntersSame(l: Layout, p: Proc, q: Proc, w: Poise)
    requires Enters(l, p, w) && q.entry == p.entry && q.eip == p.eip && q.esp == p.esp && q.eax == p.eax
    requires q.frame == p.frame && q.ustack == p.ustack
    ensures Enters(l, q, w)
  {
  }

  lemma LeftPoised(l: Layout, m: Moment, code: int, poise: map<nat, Poise>)
    requires Poised(l, m, poise) && m.current < |m.ps|
    ensures Poised(l, LeftFrom(m, code), poise)
  {
    hide BroughtIn, Enters, Reaped;
    var c, b := m.current, LeftFrom(m, code);
    if m.ps[c].pid != 1 && m.stack != [] && m.stack[|m.stack| - 1] < |m.ps| {
      var prev, ps := m.stack[|m.stack| - 1], m.ps[c := Ended(m.ps[c], code)];
      var ps1 := ps[prev := ps[prev].(state := Running)];
      BroughtEntries(m.bits, ps1, prev);
      assert b.stack + [b.current] == m.stack;
      forall j | 0 <= j < |b.ps| && Idle(b, j) && b.ps[j].pid in poise ensures Enters(l, b.ps[j], poise[b.ps[j].pid]) {
        assert SameEntry(ps1[j], BroughtIn(m.bits, ps1, prev).ps[j]);
        assert j != c && j !in m.stack + [m.current] && Idle(m, j);
        EntersSame(l, m.ps[j], b.ps[j], poise[b.ps[j].pid]);
      }
    }
  }

  lemma YieldedPoised(l: Layout, m: Moment, frame: Frame, poise: map<nat, Poise>)
    requires Poised(l, m, poise) && m.current < |m.ps| && PidsOk(m.ps, m.nextPid)
    requires Real(m.ps[m.current]) && forall i :: 0 <= i < |m.stack| ==> m.stack[i] < |m.ps|
    ensures Poised(l, YieldedFrom(m, frame),
                   if m.stack == [] then poise else poise[m.ps[m.current].pid := Given(frame)])
  {
    hide BroughtIn, PidsOk;
    var c, b := m.current, YieldedFrom(m, frame);
    if m.stack != [] {
      var prev, ps := m.stack[|m.stack| - 1], m.ps[c := Yielded(m.ps[c], frame)];
      var ps1 := ps[prev := ps[prev].(state := Running)];
      var poise' := poise[m.ps[c].pid := Given(frame)];
      BroughtEntries(m.bits, ps1, prev);
      assert b.stack + [b.current] == m.stack;
      forall j | 0 <= j < |b.ps| && Idle(b, j) && b.ps[j].pid in poise'
        ensures Enters(l, b.ps[j], poise'[b.ps[j].pid])
      {
        assert SameEntry(ps1[j], BroughtIn(m.bits, ps1, prev).ps[j]);
        if j == c {
          assert frame[7 := frame[7]] == frame;
        } else {
          assert j !in m.stack + [m.current];
          OnePid(m.ps, m.nextPid, j, c);
          EntersSame(l, m.ps[j], b.ps[j], poise[b.ps[j].pid]);
        }
      }
    }
  }

  lemma OnePid(ps: seq<Proc>, nextPid: nat, j: nat, c: nat)
    requires PidsOk(ps, nextPid) && j < |ps| && c < |ps| && j != c && Real(ps[j])
    ensures Real(ps[c]) ==> ps[j].pid != ps[c].pid
  {
  }

  lemma WaitedPoised(l: Layout, m: Moment, pid: int, poise: map<nat, Poise>)
    requires Poised(l, m, poise) && m.current < |m.ps| && m.ps[m.current].state == Running
    ensures Poised(l, WaitedFrom(m, pid), poise)
  {
    hide Target, Enters, RunFrom, Reaped;
    var t := Target(m.ps, m.current, pid, 0);
    if t.Some? {
      if m.ps[t.value].state == Zombie {
        PoisedStill(l, m, WaitedFrom(m, pid), poise);
      } else {
        RanPoised(l, m, t.value, poise);
      }
    }
  }

  lemma KilledPoised(l: Layout, m: Moment, b: Moment, pid: int, poise: map<nat, Poise>)
    requires Poised(l, m, poise) && m.current < |m.ps| && KilledFrom(m, b, pid)
    ensures Poised(l, b, poise)
  {
    hide Enters, FreedBy, Under;
    if b != m {
      PoisedStill(l, m, b, poise);
    }
  }

  lemma AlikePoised(l: Layout, a: Moment, b: Moment, poise: map<nat, Poise>)
    requires Poised(l, a, poise) && SameEntries(a.ps, b.ps) && b.stack == a.stack && b.current == a.current
    ensures Poised(l, b, poise)
  {
    PoisedStill(l, a, b, poise);
  }

  lemma StartedPoised(l: Layout, m: Moment, file: Option<seq<byte>>, poise: map<nat, Poise>)
    requires Poised(l, m, poise) && m.nextPid !in poise && m.current < |m.ps| && PidsOk(m.ps, m.nextPid)
    requires m.nextPid > 0
    ensures var b := StartedFrom(l, m, file);
      if b.nextPid > m.nextPid then
        file.Some? && Poised(l, b, poise[m.nextPid := Fresh(EntryPoint(file.value))])
      else Poised(l, b, poise)
  {
    hide BroughtIn, SpawnReady, PidsOk, Poised;
    var b, s := StartedFrom(l, m, file), SpawnReady(l, m.bits, m.ps, m.current, m.nextPid, file);
    var a := m.(ps := s.plan.ps);
    ReadyPoised(l, m, file, poise);
    if s.r > 0 {
      BroughtEntries(s.plan.bits, s.plan.ps, m.current);
      AlikePoised(l, a, b, poise[m.nextPid := Fresh(EntryPoint(file.value))]);
    } else {
      AlikePoised(l, a, b, poise);
    }
  }

  /** The address a file says it is to be entered at. */
  function EntryPoint(data: seq<byte>): nat { if |data| < EHDR_SIZE then 0 else Le32(data, 24) }

  lemma EntryParsed(data: seq<byte>)
    ensures Parsed(data).Some? ==> Parsed(data).value.entry == EntryPoint(data)
  {
  }

  lemma ReadyPoised(l: Layout, m: Moment, file: Option<seq<byte>>, poise: map<nat, Poise>)
    requires Poised(l, m, poise) && m.nextPid !in poise && m.current < |m.ps| && PidsOk(m.ps, m.nextPid)
    requires m.nextPid > 0
    ensures var s := SpawnReady(l, m.bits, m.ps, m.current, m.nextPid, file);
      && |s.plan.ps| == |m.ps| && (s.r > 0 ==> file.Some?)
      && Poised(l, m.(ps := s.plan.ps),
                if s.r > 0 then poise[m.nextPid := Fresh(EntryPoint(file.value))] else poise)
  {
    hide LoadPlan, StackPlan, Parsed, FreeRow, Linked, Enters, PidsOk, Poised, SameEntry;
    if file.Some? {
      var load := LoadPlan(m.bits, m.ps, file.value);
      LoadEntries(m.bits, m.ps, file.value);
      var a := m.(ps := load.plan.ps);
      AlikePoised(l, m, a, poise);
      var s := SpawnReady(l, m.bits, m.ps, m.current, m.nextPid, file);
      OldPids(m.ps, m.nextPid);
      SamePids(m.ps, a.ps);
      if s.row < |a.ps| {
        if s.r > 0 {
          EntryParsed(file.value);
          NewEnters(l, s.plan.ps[s.row], m.nextPid, EntryPoint(file.value), StackPlan(load.plan.bits));
          NewPoised(l, a, s.row, s.plan.ps[s.row], poise, Fresh(EntryPoint(file.value)));
          assert s.plan.ps == a.ps[s.row := s.plan.ps[s.row]];
        } else {
          BlankPoised(l, a, s.row, poise);
        }
      }
    }
  }

  lemma SamePids(ps: seq<Proc>, ps': seq<Proc>)
    requires SameEntries(ps, ps')
    ensures forall j :: 0 <= j < |ps'| && Real(ps'[j]) ==> Real(ps[j]) && ps'[j].pid == ps[j].pid
  {
  }

  lemma BlankPoised(l: Layout, m: Moment, row: nat, poise: map<nat, Poise>)
    requires Poised(l, m, poise) && row < |m.ps|
    ensures Poised(l, m.(ps := m.ps[row := BLANK.(used := true)]), poise)
  {
    PoisedStill(l, m, m.(ps := m.ps[row := BLANK.(used := true)]), poise);
  }

  lemma NewPoised(l: Layout, m: Moment, row: nat, p: Proc, poise: map<nat, Poise>, w: Poise)
    requires Poised(l, m, poise) && row < |m.ps| && Enters(l, p, w)
    requires forall j :: 0 <= j < |m.ps| && Real(m.ps[j]) ==> m.ps[j].pid != p.pid
    ensures Poised(l, m.(ps := m.ps[row := p]), poise[p.pid := w])
  {
    hide Enters;
    var b := m.(ps := m.ps[row := p]);
    forall j | 0 <= j < |b.ps| && j != row && Idle(b, j) ensures Idle(m, j) && b.ps[j].pid != p.pid {
      assert b.ps[j] == m.ps[j];
    }
  }

  lemma OldPids(ps: seq<Proc>, nextPid: nat)
    requires PidsOk(ps, nextPid)
    ensures forall j :: 0 <= j < |ps| && Real(ps[j]) ==> ps[j].pid != nextPid
  {
  }

  /** A row as starting fills it enters at its file's entry, on top of its stack. */
  lemma NewEnters(l: Layout, p: Proc, pid: nat, entry: nat, st: Stacks)
    requires p == NewProc(pid, p.ppid, entry, p.image, p.pages, st.us, st.ks, l.Addr(st.us) + STACK_TOP)
    ensures p.pid == pid && Enters(l, p, Fresh(entry))
  {
  }

  lemma LoadEntries(bits: seq<bool>, ps: seq<Proc>, data: seq<byte>)
    ensures SameEntries(ps, LoadPlan(bits, ps, data).plan.ps)
  {
    hide SweptOut, WithRun, FirstFit, RoomFor, Loads, Spans, SpanOf;
    var n := FilePages(|data|);
    var f := FirstFit(bits, n, 0);
    if f.Some? && Spans(data) {
      var (lo, hi) := SpanOf(data);
      SweptEntries(WithRun(bits, f.value, n, true), ps, lo, hi, |ps|, 0);
    }
  }

  // ---- being entered ----

  /** A child of the running process is idle. */
  lemma ChildIdle(m: Moment, i: nat)
    requires TableOk(m.ps, m.nextPid, m.stack + [m.current]) && m.current < |m.ps| && i < |m.ps|
    requires m.ps[i].used && m.ps[i].ppid == m.ps[m.current].pid && m.ps[i].state != Zombie
    ensures Idle(m, i)
  {
    var line := m.stack + [m.current];
    if i in line {
      var k :| 0 <= k < |line| && line[k] == i;
      if k < |line| - 1 {
        LineIncreases(m.ps, line, m.nextPid, k, |line| - 1);
      }
    }
  }
}
