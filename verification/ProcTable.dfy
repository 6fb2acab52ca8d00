/** Pids, parents and the wait stack. */
module ProcTable {
  import opened Wrappers
  import opened Pages
  import opened ProcImages

  predicate Real(p: Proc) { p.used && p.pid > 0 }

  /** Pids are unique, were handed out in order, and parents are older than their children. */
  ghost predicate PidsOk(ps: seq<Proc>, nextPid: nat) {
    && (forall i :: 0 <= i < |ps| && Real(ps[i]) ==>
          ps[i].ppid < ps[i].pid < nextPid && ps[i].state in {Ready, Running, Zombie})
    && (forall i :: 0 <= i < |ps| && ps[i].used && ps[i].pid == 0 ==> ps[i].ppid == 0 && ps[i].state == Free)
    && (forall i, j :: 0 <= i < |ps| && 0 <= j < |ps| && i != j && Real(ps[i]) && Real(ps[j]) ==>
       ps[i].pid != ps[j].pid)
  }

  /** The processes that wait, the first one first, then the one that runs: each the parent of the next. */
  ghost predicate LineOk(ps: seq<Proc>, line: seq<nat>) {
    && |line| > 0 && line[0] == 0 && |ps| > 0 && ps[0].pid == 1
    && (forall m :: 0 <= m < |line| ==> line[m] < |ps| && Real(ps[line[m]]) && ps[line[m]].state != Zombie)
    && (forall m :: 0 < m < |line| ==> ps[line[m]].ppid == ps[line[m - 1]].pid)
  }

  /** Exactly the last of the line is running. */
  ghost predicate OneRuns(ps: seq<Proc>, line: seq<nat>) {
    |line| > 0 && forall i :: 0 <= i < |ps| && ps[i].used ==> (ps[i].state == Running <==> i == line[|line| - 1])
  }

  ghost predicate TableOk(ps: seq<Proc>, nextPid: nat, line: seq<nat>) {
    PidsOk(ps, nextPid) && LineOk(ps, line) && OneRuns(ps, line)
  }

  /** The rows agree on who is who and in what state. */
  predicate SameId(p: Proc, q: Proc) { q.used == p.used && q.pid == p.pid && q.ppid == p.ppid && q.state == p.state }

  lemma TableAlike(ps: seq<Proc>, ps': seq<Proc>, nextPid: nat, line: seq<nat>)
    requires TableOk(ps, nextPid, line) && |ps'| == |ps| && forall j :: 0 <= j < |ps| ==> SameId(ps[j], ps'[j])
    ensures TableOk(ps', nextPid, line)
  {
    PidsAlike(ps, ps', nextPid);
    hide PidsOk;
  }

  /** Only states change, and only between those a process may be in. */
  lemma PidsAlike(ps: seq<Proc>, ps': seq<Proc>, nextPid: nat)
    requires PidsOk(ps, nextPid) && |ps'| == |ps|
    requires forall j :: 0 <= j < |ps| ==>
      ps'[j].used == ps[j].used && ps'[j].pid == ps[j].pid && ps'[j].ppid == ps[j].ppid
    requires forall j :: 0 <= j < |ps| ==>
      ps'[j].state == ps[j].state || (Real(ps[j]) && ps'[j].state in {Ready, Running, Zombie})
    ensures PidsOk(ps', nextPid)
  {
  }

  /** The running process hands over to a child: the line is longer by it. */
  lemma HandOver(ps: seq<Proc>, ps': seq<Proc>, nextPid: nat, line: seq<nat>, prev: nat, i: nat)
    requires TableOk(ps, nextPid, line) && prev == line[|line| - 1] && prev < |ps| && i < |ps| && prev != i
    requires Real(ps[i]) && ps[i].state == Ready && ps[i].ppid == ps[prev].pid
    requires |ps'| == |ps| && SameId(ps[prev].(state := Ready), ps'[prev]) && SameId(ps[i].(state := Running), ps'[i])
    requires forall j :: 0 <= j < |ps| && j != prev && j != i ==> SameId(ps[j], ps'[j])
    ensures TableOk(ps', nextPid, line + [i])
  {
    LineLonger(ps, ps', line, prev, i);
    hide LineOk;
    PidsAlike(ps, ps', nextPid);
    hide PidsOk;
    assert (line + [i])[|line|] == i;
  }

  lemma LineLonger(ps: seq<Proc>, ps': seq<Proc>, line: seq<nat>, prev: nat, i: nat)
    requires LineOk(ps, line) && prev == line[|line| - 1] && i < |ps| && |ps'| == |ps|
    requires Real(ps'[i]) && ps'[i].state != Zombie && ps'[i].ppid == ps[prev].pid
    requires forall j :: 0 <= j < |ps| ==>
      ps'[j].used == ps[j].used && ps'[j].pid == ps[j].pid && ps'[j].ppid == ps[j].ppid
    requires forall j :: 0 <= j < |ps| && ps'[j].state == Zombie ==> ps[j].state == Zombie
    ensures LineOk(ps', line + [i])
  {
    var line' := line + [i];
    forall m | 0 <= m < |line'| ensures line'[m] < |ps'| && Real(ps'[line'[m]]) && ps'[line'[m]].state != Zombie {
      assert m < |line| ==> line'[m] == line[m];
    }
    forall m | 0 < m < |line'| ensures ps'[line'[m]].ppid == ps'[line'[m - 1]].pid {
      assert line'[m - 1] == line[m - 1] && (m < |line| ==> line'[m] == line[m]);
    }
  }

  /** The running process leaves or yields: the one before it in the line runs. */
  lemma HandBack(ps: seq<Proc>, ps': seq<Proc>, nextPid: nat, line: seq<nat>, prev: nat, i: nat)
    requires TableOk(ps, nextPid, line + [i]) && |line| > 0 && prev == line[|line| - 1] && prev < |ps| && i < |ps|
    requires |ps'| == |ps| && SameId(ps[prev].(state := Running), ps'[prev]) && i != prev
    requires SameId(ps[i].(state := Ready), ps'[i]) || SameId(ps[i].(state := Zombie), ps'[i])
    requires forall j :: 0 <= j < |ps| && j != prev && j != i ==> SameId(ps[j], ps'[j])
    ensures TableOk(ps', nextPid, line)
  {
    var line' := line + [i];
    forall m | 0 <= m < |line| ensures line[m] != i {
      LineIncreases(ps, line', nextPid, m, |line|);
    }
    LineShorter(ps, ps', line, i);
    assert line'[|line|] == i && line'[|line| - 1] == prev;
    RealInLine(ps, line', |line|);
    RealInLine(ps, line', |line| - 1);
    hide LineOk;
    PidsAlike(ps, ps', nextPid);
    hide PidsOk;
  }

  lemma RealInLine(ps: seq<Proc>, line: seq<nat>, m: nat)
    requires LineOk(ps, line) && m < |line|
    ensures line[m] < |ps| && Real(ps[line[m]]) && ps[line[m]].state != Zombie
  {
  }

  lemma LineShorter(ps: seq<Proc>, ps': seq<Proc>, line: seq<nat>, i: nat)
    requires LineOk(ps, line + [i]) && |line| > 0 && |ps'| == |ps| && i !in line
    requires forall j :: 0 <= j < |ps| ==>
      ps'[j].used == ps[j].used && ps'[j].pid == ps[j].pid && ps'[j].ppid == ps[j].ppid
    requires forall j :: 0 <= j < |ps| && j != i && ps'[j].state == Zombie ==> ps[j].state == Zombie
    ensures LineOk(ps', line)
  {
    var line' := line + [i];
    assert line'[0] == line[0];
    forall m | 0 <= m < |line| ensures line[m] < |ps'| && Real(ps'[line[m]]) && ps'[line[m]].state != Zombie {
      assert line'[m] == line[m] && line[m] in line;
    }
    forall m | 0 < m < |line| ensures ps'[line[m]].ppid == ps'[line[m - 1]].pid {
      assert line'[m] == line[m] && line'[m - 1] == line[m - 1];
    }
  }

  /** Along the line pids increase, so nobody waits twice. */
  lemma {:induction false} LineIncreases(ps: seq<Proc>, line: seq<nat>, nextPid: nat, a: nat, b: nat)
    requires PidsOk(ps, nextPid) && LineOk(ps, line) && a < b < |line|
    ensures ps[line[a]].pid < ps[line[b]].pid && line[a] != line[b]
  {
    if a < b - 1 {
      LineIncreases(ps, line, nextPid, a, b - 1);
    }
  }

  // ---- descendants ----

  /** Row `j` is reached from the process `pid` by going down to children, past none that is a zombie. */
  ghost predicate Under(ps: seq<Proc>, j: nat, pid: nat)
    requires j < |ps|
    decreases ps[j].pid
  {
    ps[j].used && (ps[j].ppid == pid ||
                   exists k :: 0 <= k < |ps| && ps[k].used && ps[k].pid == ps[j].ppid && ps[k].pid < ps[j].pid
                     && ps[k].state != Zombie && Under(ps, k, pid))
  }

  /** Only younger processes are under a process. */
  lemma {:induction false} UnderYounger(ps: seq<Proc>, nextPid: nat, j: nat, pid: nat)
    requires PidsOk(ps, nextPid) && j < |ps| && pid > 0 && Under(ps, j, pid)
    ensures Real(ps[j]) && ps[j].pid > pid
    decreases ps[j].pid
  {
    if ps[j].ppid != pid {
      var k :| 0 <= k < |ps| && ps[k].used && ps[k].pid == ps[j].ppid && ps[k].pid < ps[j].pid && ps[k].state != Zombie
        && Under(ps, k, pid);
      UnderYounger(ps, nextPid, k, pid);
    }
  }

  /** What is under a process is one of its children or under one of them that is no zombie. */
  lemma {:induction false} UnderChild(ps: seq<Proc>, nextPid: nat, j: nat, pid: nat) returns (c: nat)
    requires PidsOk(ps, nextPid) && j < |ps| && pid > 0 && Under(ps, j, pid)
    ensures c < |ps| && ps[c].used && ps[c].ppid == pid
    ensures j == c || (ps[c].state != Zombie && Under(ps, j, ps[c].pid))
    decreases ps[j].pid
  {
    if ps[j].ppid == pid {
      c := j;
    } else {
      var k :| 0 <= k < |ps| && ps[k].used && ps[k].pid == ps[j].ppid && ps[k].pid < ps[j].pid && ps[k].state != Zombie
        && Under(ps, k, pid);
      c := UnderChild(ps, nextPid, k, pid);
    }
  }

  /** ... and the other way round. */
  lemma {:induction false} ChildUnder(ps: seq<Proc>, nextPid: nat, j: nat, c: nat)
    requires PidsOk(ps, nextPid) && j < |ps| && c < |ps| && Real(ps[c]) && ps[c].state != Zombie
    requires Under(ps, j, ps[c].pid)
    ensures Under(ps, j, ps[c].ppid)
    decreases ps[j].pid
  {
    if ps[j].ppid != ps[c].pid {
      var k :| 0 <= k < |ps| && ps[k].used && ps[k].pid == ps[j].ppid && ps[k].pid < ps[j].pid && ps[k].state != Zombie
        && Under(ps, k, ps[c].pid);
      ChildUnder(ps, nextPid, k, c);
    } else {
      UnderYounger(ps, nextPid, j, ps[c].pid);
      assert Under(ps, c, ps[c].ppid);
    }
  }

  lemma SamePid(ps: seq<Proc>, nextPid: nat, a: nat, b: nat)
    requires PidsOk(ps, nextPid) && a < |ps| && b < |ps| && Real(ps[a]) && Real(ps[b]) && ps[a].pid == ps[b].pid
    ensures a == b
  {
  }

  /** A child is not under its brother. */
  lemma NotUnderBrother(ps: seq<Proc>, nextPid: nat, a: nat, b: nat)
    requires PidsOk(ps, nextPid) && a < |ps| && b < |ps| && Real(ps[a]) && Real(ps[b]) && ps[a].ppid == ps[b].ppid
    ensures !Under(ps, a, ps[b].pid)
  {
    if Under(ps, a, ps[b].pid) {
      var k := UpOne(ps, nextPid, a, ps[b].pid);
    }
  }

  /** What is under a process but not its child has a parent under it. */
  lemma UpOne(ps: seq<Proc>, nextPid: nat, j: nat, pid: nat) returns (k: nat)
    requires PidsOk(ps, nextPid) && j < |ps| && pid > 0 && Under(ps, j, pid) && ps[j].ppid != pid
    ensures k < |ps| && Real(ps[k]) && ps[k].pid == ps[j].ppid && ps[k].pid > pid && ps[k].state != Zombie
    ensures Under(ps, k, pid)
  {
    k :| 0 <= k < |ps| && ps[k].used && ps[k].pid == ps[j].ppid && ps[k].pid < ps[j].pid && ps[k].state != Zombie
      && Under(ps, k, pid);
    UnderYounger(ps, nextPid, k, pid);
  }

  /** The processes under one child are not under another. */
  lemma {:induction false} UnderOne(ps: seq<Proc>, nextPid: nat, j: nat, a: nat, b: nat)
    requires PidsOk(ps, nextPid) && j < |ps| && a < |ps| && b < |ps| && Real(ps[a]) && Real(ps[b])
    requires ps[a].ppid == ps[b].ppid && a != b && (j == a || Under(ps, j, ps[a].pid))
    ensures j != b && !Under(ps, j, ps[b].pid)
    decreases ps[j].pid
  {
    NotUnderBrother(ps, nextPid, a, b);
    NotUnderBrother(ps, nextPid, b, a);
    if j != a && Under(ps, j, ps[b].pid) {
      UnderYounger(ps, nextPid, j, ps[a].pid);
      var ka, kb := a, b;
      if ps[j].ppid != ps[a].pid {
        ka := UpOne(ps, nextPid, j, ps[a].pid);
        UnderOne(ps, nextPid, ka, a, b);
      }
      if ps[j].ppid != ps[b].pid {
        kb := UpOne(ps, nextPid, j, ps[b].pid);
      }
      SamePid(ps, nextPid, ka, kb);
    }
  }

  /** Nobody under a process that is not in the line is in the line. */
  lemma {:induction false} LineNotUnder(ps: seq<Proc>, line: seq<nat>, nextPid: nat, i: nat, m: nat)
    requires PidsOk(ps, nextPid) && LineOk(ps, line) && i < |ps| && Real(ps[i]) && i !in line && m < |line|
    ensures !Under(ps, line[m], ps[i].pid)
  {
    var j := line[m];
    assert ps[line[0]].pid == 1;
    if Under(ps, j, ps[i].pid) {
      UnderYounger(ps, nextPid, j, ps[i].pid);
      if m > 0 {
        LineNotUnder(ps, line, nextPid, i, m - 1);
        if ps[j].ppid != ps[i].pid {
          var k := UpOne(ps, nextPid, j, ps[i].pid);
        }
      }
    }
  }

  /** Whoever is further along the line is under everybody before. */
  lemma {:induction false} LineUnder(ps: seq<Proc>, line: seq<nat>, nextPid: nat, a: nat, b: nat)
    requires PidsOk(ps, nextPid) && LineOk(ps, line) && a < b < |line|
    ensures Under(ps, line[b], ps[line[a]].pid)
    decreases b - a
  {
    assert ps[line[b]].ppid == ps[line[b - 1]].pid;
    if a < b - 1 {
      LineUnder(ps, line, nextPid, a, b - 1);
    }
  }

  // ---- killing ----

  function Killed(p: Proc): Proc { p.(exitCode := 137, state := Zombie, frame := None) }

  /** The process in row `i` has become a zombie, all under it are gone, and every other row is what it was. */
  ghost predicate KilledAll(ps: seq<Proc>, ps': seq<Proc>, i: nat)
    requires i < |ps|
  {
    |ps'| == |ps| && ps'[i] == Killed(ps[i]) &&
    forall j :: 0 <= j < |ps| && j != i ==> if Under(ps, j, ps[i].pid) then !ps'[j].used else ps'[j] == ps[j]
  }

  /** Row `c` is a child of `pid` and `j` is that child or, unless it is a zombie, under it. */
  ghost predicate Via(ps: seq<Proc>, j: nat, pid: nat, c: nat)
    requires j < |ps| && c < |ps|
  {
    ps[c].used && ps[c].ppid == pid && (j == c || (ps[c].state != Zombie && Under(ps, j, ps[c].pid)))
  }

  ghost predicate Done(ps: seq<Proc>, j: nat, pid: nat, k: nat)
    requires j < |ps|
  {
    exists c :: 0 <= c < k && c < |ps| && Via(ps, j, pid, c)
  }

  /** The first `k` rows were seen to; row `i` itself is still what it was. */
  ghost predicate KilledPart(ps: seq<Proc>, ps': seq<Proc>, i: nat, k: nat)
    requires i < |ps|
  {
    |ps'| == |ps| && ps'[i] == ps[i] &&
    forall j :: 0 <= j < |ps| && j != i ==> if Done(ps, j, ps[i].pid, k) then !ps'[j].used else ps'[j] == ps[j]
  }

  lemma NothingKilled(ps: seq<Proc>, i: nat)
    requires i < |ps|
    ensures KilledPart(ps, ps, i, 0)
  {
  }

  /** Done with all rows is under. */
  lemma AllDone(ps: seq<Proc>, nextPid: nat, j: nat, pid: nat)
    requires PidsOk(ps, nextPid) && j < |ps| && pid > 0
    ensures Done(ps, j, pid, |ps|) <==> Under(ps, j, pid)
  {
    if Under(ps, j, pid) {
      var c := UnderChild(ps, nextPid, j, pid);
      assert Via(ps, j, pid, c);
    }
    if Done(ps, j, pid, |ps|) {
      var c :| 0 <= c < |ps| && Via(ps, j, pid, c);
      if j != c {
        ChildUnder(ps, nextPid, j, c);
      }
    }
  }

  /** Two children's subtrees are apart. */
  lemma ViaOne(ps: seq<Proc>, nextPid: nat, j: nat, pid: nat, a: nat, b: nat)
    requires PidsOk(ps, nextPid) && j < |ps| && a < |ps| && b < |ps| && pid > 0 && Via(ps, j, pid, a)
    requires Via(ps, j, pid, b)
    ensures a == b
  {
    if a != b {
      if j == b {
        UnderOne(ps, nextPid, j, b, a);
      } else {
        UnderOne(ps, nextPid, j, a, b);
      }
    }
  }

  /** If rows outside a subtree went, the subtree is what it was. */
  lemma {:induction false} UnderKept(ps: seq<Proc>, ps': seq<Proc>, nextPid: nat, j: nat, q: nat)
    requires PidsOk(ps, nextPid) && |ps'| == |ps| && j < |ps| && q > 0
    requires forall x :: 0 <= x < |ps| ==> ps'[x] == ps[x] || !ps'[x].used
    requires forall x :: 0 <= x < |ps| && Under(ps, x, q) ==> ps'[x] == ps[x]
    ensures Under(ps', j, q) <==> Under(ps, j, q)
    decreases ps[j].pid
  {
    if Under(ps, j, q) && ps[j].ppid != q {
      var k := UpOne(ps, nextPid, j, q);
      UnderKept(ps, ps', nextPid, k, q);
    }
    if Under(ps', j, q) && ps'[j].ppid != q {
      var k :| 0 <= k < |ps'| && ps'[k].used && ps'[k].pid == ps'[j].ppid && ps'[k].pid < ps'[j].pid
        && ps'[k].state != Zombie && Under(ps', k, q);
      UnderKept(ps, ps', nextPid, k, q);
    }
  }

  /** Before its turn a child and its subtree are as they were. */
  lemma ChildWhole(ps: seq<Proc>, ps1: seq<Proc>, nextPid: nat, i: nat, k: nat)
    requires PidsOk(ps, nextPid) && i < |ps| && Real(ps[i]) && KilledPart(ps, ps1, i, k) && k < |ps|
    requires ps[k].used && ps[k].ppid == ps[i].pid
    ensures k != i && ps1[k] == ps[k] && Real(ps[k])
    ensures forall j :: 0 <= j < |ps| && Under(ps, j, ps[k].pid) ==> ps1[j] == ps[j]
    ensures forall j :: 0 <= j < |ps| ==> (Under(ps1, j, ps[k].pid) <==> Under(ps, j, ps[k].pid))
  {
    var pid := ps[i].pid;
    assert Under(ps, k, pid);
    UnderYounger(ps, nextPid, k, pid);
    if Done(ps, k, pid, k) {
      var c :| 0 <= c < k && c < |ps| && Via(ps, k, pid, c);
      assert Via(ps, k, pid, k);
      ViaOne(ps, nextPid, k, pid, c, k);
    }
    forall j | 0 <= j < |ps| && Under(ps, j, ps[k].pid) ensures ps1[j] == ps[j] {
      UnderYounger(ps, nextPid, j, ps[k].pid);
      if Done(ps, j, pid, k) {
        var c :| 0 <= c < k && c < |ps| && Via(ps, j, pid, c);
        UnderOne(ps, nextPid, j, k, c);
      }
    }
    forall j | 0 <= j < |ps| ensures Under(ps1, j, ps[k].pid) <==> Under(ps, j, ps[k].pid) {
      UnderKept(ps, ps1, nextPid, j, ps[k].pid);
    }
  }

  /** Killing a child with all under it, and giving up its row. */
  lemma ChildGone(ps: seq<Proc>, ps1: seq<Proc>, ps2: seq<Proc>, nextPid: nat, i: nat, k: nat, q: Proc)
    requires PidsOk(ps, nextPid) && i < |ps| && Real(ps[i]) && KilledPart(ps, ps1, i, k) && k < |ps|
    requires ps[k].used && ps[k].ppid == ps[i].pid && !q.used
    requires if ps[k].state == Zombie then ps2 == ps1 else KilledAll(ps1, ps2, k)
    ensures KilledPart(ps, ps2[k := q], i, k + 1)
  {
    ChildWhole(ps, ps1, nextPid, i, k);
    var pid := ps[i].pid;
    assert !Under(ps, i, ps[k].pid) by {
      if Under(ps, i, ps[k].pid) {
        UnderYounger(ps, nextPid, i, ps[k].pid);
      }
    }
    forall j | 0 <= j < |ps| && j != i
      ensures Done(ps, j, pid, k + 1) <==> Done(ps, j, pid, k) || Via(ps, j, pid, k)
    {
    }
    hide Under, Done;
  }

  /** A row that is no child is passed over. */
  lemma NotChild(ps: seq<Proc>, ps1: seq<Proc>, i: nat, k: nat)
    requires i < |ps| && KilledPart(ps, ps1, i, k) && k < |ps| && !(ps1[k].used && ps1[k].ppid == ps[i].pid)
    requires ps[k].used && ps[k].ppid == ps[i].pid ==> ps1[k] == ps[k]
    ensures KilledPart(ps, ps1, i, k + 1)
  {
    forall j | 0 <= j < |ps| && j != i ensures Done(ps, j, ps[i].pid, k + 1) <==> Done(ps, j, ps[i].pid, k) {
    }
    hide Under, Done;
  }

  /** The last step: the process itself. */
  lemma KilledLast(ps: seq<Proc>, ps1: seq<Proc>, nextPid: nat, i: nat)
    requires PidsOk(ps, nextPid) && i < |ps| && Real(ps[i]) && KilledPart(ps, ps1, i, |ps|)
    ensures KilledAll(ps, ps1[i := Killed(ps[i])], i)
  {
    forall j | 0 <= j < |ps| ensures Done(ps, j, ps[i].pid, |ps|) <==> Under(ps, j, ps[i].pid) {
      AllDone(ps, nextPid, j, ps[i].pid);
    }
    hide Under, Done;
  }
}
