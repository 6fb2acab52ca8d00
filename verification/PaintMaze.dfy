/** A picture of the paint program's own size that its flood fill leaves unfinished, because its stack is too small. */
module PaintMaze {
  import opened Bytes
  import opened Paint

  const CW: nat := 320
  const CH: nat := 200
  const FILL_STACK: nat := 4096

  const OPEN: int := 0
  const WALL: int := 1
  const INK: int := 2

  /** A corridor up and down every second column, from the lower left corner on. */
  predicate Free(p: Point) { p.x % 2 == 0 || p.y == if p.x % 4 == 1 then 0 else 199 }

  /** The place of a free pixel along the corridor. */
  function Serial(p: Point): int {
    402 * (p.x / 4) + if p.x % 4 == 0 then 199 - p.y else if p.x % 4 == 1 then 200 else if p.x % 4 == 2 then 201 + p.y
      else 401
  }

  /** The pixel at a place of the corridor. */
  function Pix(n: nat): Point {
    var x, i := 4 * (n / 402), n % 402;
    if i < 200 then Point(x, 199 - i) else if i == 200 then Point(x + 1, 0) else if i < 401 then Point(x + 2, i - 201)
      else Point(x + 3, 199)
  }

  const LENGTH: nat := 32160

  lemma PixPlace(n: nat)
    requires n < LENGTH
    ensures Inside(CW, CH, Pix(n)) && Free(Pix(n)) && Serial(Pix(n)) == n
  {}

  lemma SerialPix(p: Point)
    requires Inside(CW, CH, p) && Free(p)
    ensures 0 <= Serial(p) < LENGTH && Pix(Serial(p)) == p
  {}

  /** Of the four neighbours only the places before and behind are free. */
  lemma Corridor(n: nat, k: nat)
    requires n < LENGTH && k < 4
    ensures var q := Neighbours(Pix(n))[k];
      Inside(CW, CH, q) && Free(q) ==> Serial(q) == n - 1 || Serial(q) == n + 1
  {}

  /** Which neighbour comes next along the corridor. */
  function Turn(n: nat): (k: nat)
    ensures k < 4
  {
    var i := n % 402;
    if i < 199 then 3 else if i < 201 then 0 else if i < 400 then 2 else 0
  }

  lemma NextPix(n: nat)
    requires n + 1 < LENGTH
    ensures Neighbours(Pix(n))[Turn(n)] == Pix(n + 1)
  {}

  /** The picture with the first `n` places of the corridor inked. */
  function Shade(p: Point, n: nat): int { if !Free(p) then WALL else if Serial(p) < n then INK else OPEN }

  function Maze(n: nat): (c: Canvas)
    ensures |c| == CW * CH
  {
    seq(CW * CH, k requires 0 <= k < CW * CH => Shade(Point(k % CW, k / CW), n))
  }

  lemma MazeAt(n: nat, p: Point)
    requires Inside(CW, CH, p)
    ensures 0 <= Idx(CW, p) < CW * CH && Maze(n)[Idx(CW, p)] == Shade(p, n)
  {
    assert Idx(CW, p) % CW == p.x && Idx(CW, p) / CW == p.y;
  }

  lemma MazeNext(n: nat)
    requires n < LENGTH
    ensures Inside(CW, CH, Pix(n)) && 0 <= Idx(CW, Pix(n)) < CW * CH
    ensures Maze(n)[Idx(CW, Pix(n)) := INK] == Maze(n + 1)
  {
    hide Maze, Shade, Serial, Pix, Free;
    PixPlace(n);
    MazeAt(n, Pix(n));
    var inked, next := Maze(n)[Idx(CW, Pix(n)) := INK], Maze(n + 1);
    forall k | 0 <= k < CW * CH ensures inked[k] == next[k] {
      var p := Point(k % CW, k / CW);
      assert Idx(CW, p) == k;
      MazeAt(n, p);
      MazeAt(n + 1, p);
      ShadeNext(p, n);
    }
  }

  lemma ShadeNext(p: Point, n: nat)
    requires Inside(CW, CH, p) && n < LENGTH
    ensures Shade(p, n + 1) == if p == Pix(n) then INK else Shade(p, n)
  {
    hide Pix, Serial;
    PixPlace(n);
    if Free(p) {
      SerialPix(p);
    }
  }

  /** A pixel that will be taken off the stack without effect, now and later. */
  predicate Spent(p: Point, n: nat) { Inside(CW, CH, p) ==> Shade(p, n) != OPEN }

  ghost predicate AllSpent(s: seq<Point>, n: nat) { forall k :: 0 <= k < |s| ==> Spent(s[k], n) }

  /** Spent pixels come off the stack and change nothing. */
  lemma {:induction false} SpentOff(n: nat, rest: seq<Point>, more: seq<Point>)
    requires AllSpent(more, n)
    ensures Filled(Maze(n), CW, CH, FILL_STACK, OPEN, INK, rest + more) == Filled(Maze(n), CW, CH, FILL_STACK, OPEN,
      INK, rest)
    decreases |more|
  {
    hide Maze, Shade, Filled, Idx;
    if more == [] {
      assert rest + more == rest;
    } else {
      var k := |more| - 1;
      assert rest + more == rest + more[..k] + [more[k]];
      assert Spent(more[k], n);
      if Inside(CW, CH, more[k]) {
        MazeAt(n, more[k]);
      }
      FilledPop(Maze(n), CW, CH, FILL_STACK, OPEN, INK, rest + more[..k], more[k]);
      SpentOff(n, rest, more[..k]);
    }
  }

  /** Once the pixel at a place is inked, its neighbours but the next one are spent. */
  lemma OthersSpent(n: nat, k: nat)
    requires n + 1 < LENGTH && k < 4 && k != Turn(n)
    ensures Spent(Neighbours(Pix(n))[k], n + 1)
  {
    hide Pix, Serial, Turn;
    Corridor(n, k);
    NextPix(n);
    var q := Neighbours(Pix(n))[k];
    if Inside(CW, CH, q) && Free(q) && Serial(q) == n + 1 {
      SerialPix(q);
    }
  }

  lemma StillSpent(s: seq<Point>, n: nat)
    requires AllSpent(s, n)
    ensures AllSpent(s, n + 1)
  {
    hide Serial, Free;
    assert forall k :: 0 <= k < |s| ==> Spent(s[k], n);
  }

  /** One place further, with as many spent pixels left behind as come before the next one among the neighbours. */
  lemma OneFurther(n: nat, junk: seq<Point>) returns (junk': seq<Point>)
    requires n + 1 < LENGTH && AllSpent(junk, n) && |junk| + Turn(n) < FILL_STACK
    ensures AllSpent(junk', n + 1) && |junk'| == |junk| + Turn(n)
    ensures Filled(Maze(n), CW, CH, FILL_STACK, OPEN, INK, junk + [Pix(n)])
      == Filled(Maze(n + 1), CW, CH, FILL_STACK, OPEN, INK, junk' + [Pix(n + 1)])
  {
    hide Maze, Shade, Filled, Idx, Pix, Neighbours, Turn, Spent;
    var near := Neighbours(Pix(n));
    var t, m := Turn(n), Fit(FILL_STACK, |junk|);
    Inked(n, junk);
    NextPix(n);
    StillSpent(junk, n);
    forall k | 0 <= k < 4 && k != t ensures Spent(near[k], n + 1) {
      OthersSpent(n, k);
    }
    junk' := junk + near[..t];
    assert junk + near[..m] == junk' + [near[t]] + near[t + 1..m];
    var above := near[t + 1..m];
    assert forall k :: 0 <= k < |above| ==> above[k] == near[t + 1 + k];
    SpentOff(n + 1, junk' + [near[t]], above);
  }

  /** The pixel on top is inked and its neighbours are pushed. */
  lemma Inked(n: nat, junk: seq<Point>)
    requires n < LENGTH
    ensures Filled(Maze(n), CW, CH, FILL_STACK, OPEN, INK, junk + [Pix(n)])
      == Filled(Maze(n + 1), CW, CH, FILL_STACK, OPEN, INK, junk + Neighbours(Pix(n))[..Fit(FILL_STACK, |junk|)])
  {
    hide Maze, Filled, Pix, Neighbours, Free, Serial;
    PixPlace(n);
    MazeAt(n, Pix(n));
    MazeNext(n);
    FilledPop(Maze(n), CW, CH, FILL_STACK, OPEN, INK, junk, Pix(n));
  }

  /** Where there is no room left for the next place, filling ends. */
  lemma Stuck(n: nat, junk: seq<Point>)
    requires n + 1 < LENGTH && AllSpent(junk, n) && |junk| < FILL_STACK <= |junk| + Turn(n)
    ensures Filled(Maze(n), CW, CH, FILL_STACK, OPEN, INK, junk + [Pix(n)]) == Maze(n + 1)
  {
    hide Maze, Shade, Filled, Idx, Pix, Neighbours, Turn, Spent;
    var near, m := Neighbours(Pix(n)), Fit(FILL_STACK, |junk|);
    Inked(n, junk);
    StillSpent(junk, n);
    forall k | 0 <= k < m ensures Spent(near[k], n + 1) {
      OthersSpent(n, k);
    }
    assert junk + near[..m] == [] + (junk + near[..m]);
    SpentOff(n + 1, [], junk + near[..m]);
    FilledNothing(Maze(n + 1), CW, CH, FILL_STACK, OPEN, INK, []);
  }

  /** How many spent pixels lie on the stack when a place is reached. */
  function Depth(n: nat): nat { if n == 0 then 0 else Depth(n - 1) + Turn(n - 1) }

  function DepthAt(j: nat, i: nat): int {
    995 * j + if i < 200 then 3 * i else if i < 202 then 597 else if i < 401 then 597 + 2 * (i - 201) else 995
  }

  lemma {:induction false} DepthIs(n: nat)
    ensures Depth(n) == DepthAt(n / 402, n % 402)
  {
    if n > 0 {
      hide DepthAt;
      DepthIs(n - 1);
      DepthNext((n - 1) / 402, (n - 1) % 402);
      var j, i := (n - 1) / 402, (n - 1) % 402;
      DivModUnique(n, 402, if i == 401 then j + 1 else j, if i == 401 then 0 else i + 1);
    } else {
      assert DepthAt(0, 0) == 0;
    }
  }

  lemma DepthNext(j: nat, i: nat)
    requires i < 402
    ensures DepthAt(if i == 401 then j + 1 else j, if i == 401 then 0 else i + 1)
      == DepthAt(j, i) + if i < 199 then 3 else if i < 201 then 0 else if i < 400 then 2 else 0
  {}

  lemma {:induction false} Reached(n: nat) returns (junk: seq<Point>)
    requires n < LENGTH && Depth(n) < FILL_STACK
    ensures AllSpent(junk, n) && |junk| == Depth(n)
    ensures Filled(Maze(0), CW, CH, FILL_STACK, OPEN, INK, [Pix(0)]) == Filled(Maze(n), CW, CH, FILL_STACK, OPEN, INK,
      junk + [Pix(n)])
  {
    hide Filled, Maze, Pix, Turn, Spent;
    if n == 0 {
      junk := [];
      assert [] + [Pix(0)] == [Pix(0)];
    } else {
      var before := Reached(n - 1);
      junk := OneFurther(n - 1, before);
    }
  }

  lemma {:induction false} Walked(n: nat) returns (path: seq<Point>)
    requires n < LENGTH
    ensures Walk(Maze(0), CW, CH, OPEN, path) && |path| == n + 1 && path[0] == Pix(0) && path[n] == Pix(n)
  {
    hide Maze, Pix, Turn, Neighbours, Serial, Free, Idx;
    PixPlace(n);
    MazeAt(0, Pix(n));
    if n == 0 {
      path := [Pix(0)];
    } else {
      var front := Walked(n - 1);
      NextPix(n - 1);
      path := front + [Pix(n)];
      assert path[n] in Neighbours(path[n - 1]);
    }
  }

  /**
   * From the lower left corner of the corridor exactly 1647 of its 32160 pixels are filled; the next one is connected
   * to the start and stays as it was.
   */
  lemma CorridorUnfinished()
    ensures Filled(Maze(0), CW, CH, FILL_STACK, OPEN, INK, [Pix(0)]) == Maze(1647)
    ensures Connected(Maze(0), CW, CH, OPEN, Pix(0), Pix(1647)) && Colour(Maze(1647), CW, CH, Pix(1647)) == OPEN
  {
    hide Filled, Maze, Pix, Spent, Neighbours, Serial, Free, Idx, Depth;
    DepthIs(1646);
    var junk := Reached(1646);
    Stuck(1646, junk);
    var path := Walked(1647);
    PixPlace(1647);
    MazeAt(1647, Pix(1647));
  }
}
