/** What swapping does to the page map and the process table, computed beforehand. */
module ProcPlan {
  import opened Wrappers
  import opened Pages
  import opened ProcImages

  /** Row `k` is in memory and in the way. */
  predicate InWay(ps: seq<Proc>, lo: nat, hi: nat, skip: nat, k: nat)
    requires k < |ps|
  {
    k != skip && Live(ps[k]) && Meets(ps[k], lo, hi)
  }

  /**
   * There is room to swap out, one after the other, every image from row `k` on that is in the way, save that of row
   * `skip`.
   */
  predicate RoomFor(bits: seq<bool>, ps: seq<Proc>, lo: nat, hi: nat, skip: nat, k: nat)
    decreases |ps| - k
  {
    if k >= |ps| then true
    else if InWay(ps, lo, hi, skip, k) then
      var s := FirstFit(bits, ps[k].pages, 0);
      s.Some? && RoomFor(WithRun(bits, s.value, ps[k].pages, true), ps, lo, hi, skip, k + 1)
    else RoomFor(bits, ps, lo, hi, skip, k + 1)
  }

  datatype Plan = Plan(bits: seq<bool>, ps: seq<Proc>)

  /** The page map and the rows after that, as far as there is room. */
  function SweptOut(bits: seq<bool>, ps: seq<Proc>, lo: nat, hi: nat, skip: nat, k: nat): (p: Plan)
    ensures |p.ps| == |ps|
    decreases |ps| - k
  {
    if k >= |ps| then Plan(bits, ps)
    else if InWay(ps, lo, hi, skip, k) then
      var s := FirstFit(bits, ps[k].pages, 0);
      if s.None? then Plan(bits, ps)
      else SweptOut(WithRun(bits, s.value, ps[k].pages, true), ps[k := Out(ps[k], s.value)], lo, hi, skip, k + 1)
    else SweptOut(bits, ps, lo, hi, skip, k + 1)
  }

  /** Rows before `k` do not matter to what is still to be swapped out. */
  lemma {:induction false} RoomAhead(bits: seq<bool>, ps: seq<Proc>, ps': seq<Proc>, lo: nat, hi: nat, skip: nat,
                                     k: nat)
    requires |ps'| == |ps|
    requires forall j :: k <= j < |ps| ==>
      InWay(ps', lo, hi, skip, j) == InWay(ps, lo, hi, skip, j) && ps'[j].pages == ps[j].pages
    ensures RoomFor(bits, ps', lo, hi, skip, k) == RoomFor(bits, ps, lo, hi, skip, k)
    decreases |ps| - k
  {
    hide InWay, FirstFit, WithRun;
    if k < |ps| {
      if InWay(ps, lo, hi, skip, k) {
        var s := FirstFit(bits, ps[k].pages, 0);
        if s.Some? {
          RoomAhead(WithRun(bits, s.value, ps[k].pages, true), ps, ps', lo, hi, skip, k + 1);
        }
      } else {
        RoomAhead(bits, ps, ps', lo, hi, skip, k + 1);
      }
    }
  }

  lemma SweepSkip(bits: seq<bool>, ps: seq<Proc>, lo: nat, hi: nat, skip: nat, k: nat)
    requires k < |ps| && !InWay(ps, lo, hi, skip, k)
    ensures SweptOut(bits, ps, lo, hi, skip, k) == SweptOut(bits, ps, lo, hi, skip, k + 1)
    ensures RoomFor(bits, ps, lo, hi, skip, k) == RoomFor(bits, ps, lo, hi, skip, k + 1)
  {
    hide InWay;
  }

  lemma SweepOne(bits: seq<bool>, ps: seq<Proc>, lo: nat, hi: nat, skip: nat, k: nat, s: nat)
    requires k < |ps| && InWay(ps, lo, hi, skip, k) && FirstFit(bits, ps[k].pages, 0) == Some(s)
    ensures var bits', ps' := WithRun(bits, s, ps[k].pages, true), ps[k := Out(ps[k], s)];
      && SweptOut(bits, ps, lo, hi, skip, k) == SweptOut(bits', ps', lo, hi, skip, k + 1)
      && RoomFor(bits, ps, lo, hi, skip, k) == RoomFor(bits', ps', lo, hi, skip, k + 1)
  {
    hide FirstFit, WithRun, Out;
    RoomAhead(WithRun(bits, s, ps[k].pages, true), ps, ps[k := Out(ps[k], s)], lo, hi, skip, k + 1);
  }

  lemma SweepStop(bits: seq<bool>, ps: seq<Proc>, lo: nat, hi: nat, skip: nat, k: nat)
    requires k < |ps| && InWay(ps, lo, hi, skip, k) && FirstFit(bits, ps[k].pages, 0) == None
    ensures SweptOut(bits, ps, lo, hi, skip, k) == Plan(bits, ps) && !RoomFor(bits, ps, lo, hi, skip, k)
  {
    hide FirstFit, InWay;
  }

  lemma SweepEnd(bits: seq<bool>, ps: seq<Proc>, lo: nat, hi: nat, skip: nat)
    ensures SweptOut(bits, ps, lo, hi, skip, |ps|) == Plan(bits, ps) && RoomFor(bits, ps, lo, hi, skip, |ps|)
  {}

  /** An evicted image that can be brought back. */
  predicate Comes(bits: seq<bool>, ps: seq<Proc>, i: nat)
    requires i < |ps|
  {
    RoomFor(bits, ps, ps[i].image, ps[i].image + Size(ps[i].pages), i, 0)
  }

  /** The page map and the rows after trying to bring row `i` back. */
  function BroughtIn(bits: seq<bool>, ps: seq<Proc>, i: nat): (p: Plan)
    requires i < |ps|
    ensures |p.ps| == |ps|
  {
    if !ps[i].evicted || ps[i].shadow.None? then Plan(bits, ps)
    else
      var p := SweptOut(bits, ps, ps[i].image, ps[i].image + Size(ps[i].pages), i, 0);
      if Comes(bits, ps, i) then Plan(WithRun(p.bits, ps[i].shadow.value, ps[i].pages, false), p.ps[i := In(ps[i])])
        else p
  }
}
