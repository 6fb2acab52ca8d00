/** Two drawing algorithms of the paint program: Bresenham's line, and flood fill with a stack of fixed size. */
module Paint {
  import opened Bytes

  // ---- lines ----

  datatype Point = Point(x: int, y: int)

  function Abs(n: int): (a: nat) { if n < 0 then -n else n }

  function Sign(n: int): int { if n < 0 then -1 else 1 }

  function Max(a: int, b: int): int { if a > b then a else b }

  /**
   * Twice the distance of a point `i` columns and `j` rows from the start to the ideal line, along the minor axis and
   * times the major extent.
   */
  function Off(i: int, j: int, adx: int, ady: int): int { 2 * Cross(i, j, adx, ady) }

  function Cross(i: int, j: int, adx: int, ady: int): int { i * ady - j * adx }

  /** Point `k` of a line: one step further on the major axis each time, at most half a pixel off on the minor one. */
  ghost predicate OnLine(p: Point, k: int, x0: int, y0: int, x1: int, y1: int) {
    var i, j, adx, ady := Sign(x1 - x0) * (p.x - x0), Sign(y1 - y0) * (p.y - y0), Abs(x1 - x0), Abs(y1 - y0);
    && (if adx >= ady then i == k else j == k) && 0 <= i <= adx && 0 <= j <= ady
    && -Max(adx, ady) <= Off(i, j, adx, ady) <= Max(adx, ady)
  }

  /** The points a line visits, each painted with the brush. */
  method PaintLine(x0: int, y0: int, x1: int, y1: int) returns (points: seq<Point>)
    ensures |points| == Max(Abs(x1 - x0), Abs(y1 - y0)) + 1
    ensures points[0] == Point(x0, y0) && points[|points| - 1] == Point(x1, y1)
    ensures forall k :: 0 <= k < |points| ==> OnLine(points[k], k, x0, y0, x1, y1)
  {
    hide OnLine, Off, Tracks;
    var dx, dy := x1 - x0, y1 - y0;
    var sx, sy := if dx < 0 then -1 else 1, if dy < 0 then -1 else 1;
    var adx, ady := if dx < 0 then -dx else dx, if dy < 0 then -dy else dy;
    var err := adx - ady;
    var x, y := x0, y0;
    points := [];
    ghost var i, j := 0, 0;
    Start(adx, ady);
    while true
      invariant x == x0 + Along(dx, i) && y == y0 + Along(dy, j) && (if adx >= ady then i else j) == |points|
      invariant Tracks(i, j, adx, ady, err) && |points| <= Max(adx, ady)
      invariant forall k :: 0 <= k < |points| ==> OnLine(points[k], k, x0, y0, x1, y1)
      invariant if |points| > 0 then points[0] == Point(x0, y0) else i == 0 && j == 0
      decreases Max(adx, ady) - |points|
    {
      AtPoint(i, j, adx, ady, err, Point(x, y), |points|, x0, y0, x1, y1);
      points := points + [Point(x, y)];
      if x == x1 && y == y1 {
        break;
      }
      NextPoint(i, j, adx, ady, err);
      InBox(i, j, adx, ady, err);
      var e2 := err * 2;
      if e2 > -ady {
        err := err - ady;
        x := x + sx;
        i := i + 1;
      }
      if e2 < adx {
        err := err + adx;
        y := y + sy;
        j := j + 1;
      }
    }
  }

  /** The error variable carries the distance to the ideal line; the point lies within the line's box. */
  ghost predicate Tracks(i: int, j: int, adx: int, ady: int, err: int) {
    var c := Cross(i, j, adx, ady);
    && adx >= 0 && ady >= 0 && 0 <= i <= adx && 0 <= j <= ady && err == adx - ady - c
    && (if adx >= ady then -adx < 2 * c <= adx || adx == 0 else -ady <= 2 * c < ady)
  }

  lemma Start(adx: int, ady: int)
    requires adx >= 0 && ady >= 0
    ensures Tracks(0, 0, adx, ady, adx - ady)
  {
  }

  lemma InBox(i: int, j: int, adx: int, ady: int, err: int)
    requires Tracks(i, j, adx, ady, err)
    ensures 0 <= i <= adx && 0 <= j <= ady
  {
  }

  lemma CrossStep(i: int, j: int, adx: int, ady: int)
    ensures Cross(i + 1, j, adx, ady) == Cross(i, j, adx, ady) + ady
    ensures Cross(i, j + 1, adx, ady) == Cross(i, j, adx, ady) - adx
    ensures Cross(i + 1, j + 1, adx, ady) == Cross(i, j, adx, ady) + ady - adx
  {
  }

  lemma Factor(a: int, b: int, c: int)
    ensures a * b - c * a == (b - c) * a
  {}

  /** In the last column or row. */
  lemma CrossEdge(i: int, j: int, adx: int, ady: int)
    requires 0 <= i <= adx && 0 <= j <= ady
    ensures j < ady ==> Cross(adx, j, adx, ady) >= adx
    ensures i < adx ==> Cross(i, ady, adx, ady) <= -ady
  {
    Factor(adx, ady, j);
    Factor(ady, adx, i);
    if j < ady {
      MulMono(1, ady - j, adx);
    }
    if i < adx {
      MulMono(1, adx - i, ady);
    }
  }

  /** Before the end the major axis advances, the minor one just when that keeps the distance small. */
  lemma NextPoint(i: int, j: int, adx: int, ady: int, err: int)
    requires Tracks(i, j, adx, ady, err) && !(i == adx && j == ady)
    ensures adx >= ady ==> 2 * err > -ady && i < adx
    ensures adx < ady ==> 2 * err < adx && j < ady
    ensures var i', j' := if 2 * err > -ady then i + 1 else i, if 2 * err < adx then j + 1 else j;
      Tracks(i', j', adx, ady, err - (if 2 * err > -ady then ady else 0) + (if 2 * err < adx then adx else 0))
  {
    hide Cross;
    CrossStep(i, j, adx, ady);
    CrossEdge(i, j, adx, ady);
    if adx == ady {
      Diagonal(i, j, adx);
    }
  }

  lemma Diagonal(i: int, j: int, a: int)
    requires a >= 0
    ensures i > j ==> Cross(i, j, a, a) >= a
    ensures i < j ==> Cross(i, j, a, a) <= -a
    ensures i == j ==> Cross(i, j, a, a) == 0
  {
    assert Cross(i, j, a, a) == (i - j) * a;
    if i > j {
      MulMono(1, i - j, a);
    } else if i < j {
      MulMono(i - j, -1, a);
    }
  }

  lemma AtPoint(i: int, j: int, adx: int, ady: int, err: int, p: Point, k: int, x0: int, y0: int, x1: int, y1: int)
    requires Tracks(i, j, adx, ady, err) && adx == Abs(x1 - x0) && ady == Abs(y1 - y0)
    requires (if adx >= ady then i else j) == k
    requires p == Point(x0 + Along(x1 - x0, i), y0 + Along(y1 - y0, j))
    ensures OnLine(p, k, x0, y0, x1, y1)
    ensures p == Point(x1, y1) <==> i == adx && j == ady
  {
    hide Cross, Sign;
    SignAlong(x1 - x0, i);
    SignAlong(y1 - y0, j);
    CrossNothing(i, j);
    assert p.x - x0 == Along(x1 - x0, i) && p.y - y0 == Along(y1 - y0, j);
    assert Sign(x1 - x0) * (p.x - x0) == i && Sign(y1 - y0) * (p.y - y0) == j;
  }

  lemma CrossNothing(i: int, j: int)
    ensures Cross(i, j, 0, 0) == 0
  {}

  lemma SignAlong(d: int, i: int)
    ensures Sign(d) * Along(d, i) == i
  {
    if d < 0 {
      assert Sign(d) == -1;
    } else {
      assert Sign(d) == 1;
    }
  }

  /** `i` steps towards the far end. */
  function Along(d: int, i: int): int { if d < 0 then -i else i }

  // ---- flood fill ----

  type Canvas = seq<int>

  function Idx(w: nat, p: Point): int { p.y * w + p.x }

  predicate Inside(w: nat, h: nat, p: Point) { 0 <= p.x < w && 0 <= p.y < h }

  /** The colour of a pixel; no colour outside. */
  function Colour(c: Canvas, w: nat, h: nat, p: Point): int {
    if Inside(w, h, p) && 0 <= Idx(w, p) < |c| then c[Idx(w, p)] else -1
  }

  lemma IdxInside(w: nat, h: nat, p: Point)
    requires Inside(w, h, p)
    ensures 0 <= Idx(w, p) < w * h
  {
    MulMono(p.y + 1, h, w);
    MulMono(0, p.y, w);
  }

  lemma IdxInjective(w: nat, h: nat, p: Point, q: Point)
    requires Inside(w, h, p) && Inside(w, h, q) && Idx(w, p) == Idx(w, q)
    ensures p == q
  {
    DivModUnique(Idx(w, p), w, p.y, p.x);
    DivModUnique(Idx(w, q), w, q.y, q.x);
  }

  function Neighbours(p: Point): (n: seq<Point>)
    ensures |n| == 4
  {
    [Point(p.x + 1, p.y), Point(p.x - 1, p.y), Point(p.x, p.y + 1), Point(p.x, p.y - 1)]
  }

  /** A walk over pixels of one colour, each a neighbour of the one before. */
  /** The neighbours of a point are the points at a distance of one. */
  lemma NeighboursAre(p: Point, q: Point)
    ensures q in Neighbours(p) <==> Abs(q.x - p.x) + Abs(q.y - p.y) == 1
  {
    var n := Neighbours(p);
    assert n[0] in n && n[1] in n && n[2] in n && n[3] in n;
  }

  ghost predicate Walk(c: Canvas, w: nat, h: nat, oc: int, path: seq<Point>) {
    && |path| > 0 && (forall i :: 0 <= i < |path| ==> Inside(w, h, path[i]) && Colour(c, w, h, path[i]) == oc)
    && (forall i :: 0 < i < |path| ==> path[i] in Neighbours(path[i - 1]))
  }

  /** `p` can be walked to from `seed`. */
  ghost predicate Connected(c: Canvas, w: nat, h: nat, oc: int, seed: Point, p: Point) {
    exists path :: Walk(c, w, h, oc, path) && path[0] == seed && path[|path| - 1] == p
  }

  lemma ConnectedSelf(c: Canvas, w: nat, h: nat, oc: int, seed: Point)
    requires Inside(w, h, seed) && Colour(c, w, h, seed) == oc
    ensures Connected(c, w, h, oc, seed, seed)
  {
    assert Walk(c, w, h, oc, [seed]) && [seed][0] == seed;
  }

  lemma ConnectedNext(c: Canvas, w: nat, h: nat, oc: int, seed: Point, p: Point, q: Point)
    requires Connected(c, w, h, oc, seed, p) && q in Neighbours(p) && Inside(w, h, q) && Colour(c, w, h, q) == oc
    ensures Connected(c, w, h, oc, seed, q)
  {
    var path :| Walk(c, w, h, oc, path) && path[0] == seed && path[|path| - 1] == p;
    var longer := path + [q];
    assert Walk(c, w, h, oc, longer) && longer[0] == seed && longer[|longer| - 1] == q;
  }

  /** Every neighbour of a filled pixel that has the old colour is filled, or still to be looked at. */
  ghost predicate Closed(c: Canvas, w: nat, h: nat, oc: int, filled: set<Point>, todo: seq<Point>) {
    forall p, q :: p in filled && q in Neighbours(p) && Inside(w, h, q) && Colour(c, w, h, q) == oc ==>
      q in filled || q in todo
  }

  /** A set that holds the seed and is closed holds everything that can be walked to. */
  lemma ClosedIsWhole(c: Canvas, w: nat, h: nat, oc: int, seed: Point, filled: set<Point>, p: Point)
    requires Closed(c, w, h, oc, filled, []) && seed in filled && Connected(c, w, h, oc, seed, p)
    ensures p in filled
  {
    var path :| Walk(c, w, h, oc, path) && path[0] == seed && path[|path| - 1] == p;
    WalkInside(c, w, h, oc, filled, path);
  }

  lemma {:induction false} WalkInside(c: Canvas, w: nat, h: nat, oc: int, filled: set<Point>, path: seq<Point>)
    requires Closed(c, w, h, oc, filled, []) && Walk(c, w, h, oc, path) && path[0] in filled
    ensures path[|path| - 1] in filled
    decreases |path|
  {
    if |path| > 1 {
      var front := path[..|path| - 1];
      forall i | 0 < i < |front| ensures front[i] in Neighbours(front[i - 1]) {
        assert path[i] in Neighbours(path[i - 1]);
      }
      WalkInside(c, w, h, oc, filled, front);
      assert path[|path| - 1] in Neighbours(path[|path| - 2]);
    }
  }

  /** All pixels. */
  ghost function Pixels(w: nat, h: nat): (s: set<Point>)
    ensures forall p :: p in s <==> Inside(w, h, p)
  {
    set x, y | 0 <= x < w && 0 <= y < h :: Point(x, y)
  }

  /** The canvas where exactly the filled pixels have the new colour. */
  ghost predicate Painted(c0: Canvas, c: Canvas, w: nat, h: nat, filled: set<Point>, nc: int) {
    && |c| == |c0| == w * h && forall p :: Inside(w, h, p) ==> Colour(c, w, h, p) == if p in filled then nc
       else Colour(c0, w, h, p)
  }

  /** How many of four pixels fit on a stack of `room` places that holds `n`. */
  function Fit(room: nat, n: nat): (k: nat)
    ensures k <= 4
  {
    if n + 4 <= room then 4 else if n <= room then room - n else 0
  }

  /** What filling makes of a canvas when these pixels are on the stack, the last one on top. */
  function Filled(c: Canvas, w: nat, h: nat, room: nat, oc: int, nc: int, todo: seq<Point>): (c': Canvas)
    requires oc != nc
    ensures |c'| == |c|
    decreases multiset(c)[oc], |todo|
  {
    if todo == [] then c
    else
      var p, rest := todo[|todo| - 1], todo[..|todo| - 1];
      if !Inside(w, h, p) || !(0 <= Idx(w, p) < |c|) || c[Idx(w, p)] != oc then Filled(c, w, h, room, oc, nc, rest)
      else Filled(c[Idx(w, p) := nc], w, h, room, oc, nc, rest + Neighbours(p)[..Fit(room, |rest|)])
  }

  lemma FilledPop(c: Canvas, w: nat, h: nat, room: nat, oc: int, nc: int, rest: seq<Point>, p: Point)
    requires oc != nc && (Inside(w, h, p) ==> 0 <= Idx(w, p) < |c|)
    ensures Filled(c, w, h, room, oc, nc, rest + [p]) ==
      if Inside(w, h, p) && c[Idx(w, p)] == oc then
        Filled(c[Idx(w, p) := nc], w, h, room, oc, nc, rest + Neighbours(p)[..Fit(room, |rest|)])
      else Filled(c, w, h, room, oc, nc, rest)
  {
    assert (rest + [p])[..|rest|] == rest;
  }

  /** The pixels connected to the seed through its colour. */
  ghost function Component(c: Canvas, w: nat, h: nat, oc: int, seed: Point): set<Point> {
    set p | p in Pixels(w, h) && Connected(c, w, h, oc, seed, p)
  }

  /** A fill within the component is small enough for the stack if the component is. */
  lemma WithinComponent(c: Canvas, w: nat, h: nat, oc: int, seed: Point, filled: set<Point>)
    requires forall p :: p in filled ==> Connected(c, w, h, oc, seed, p)
    ensures filled <= Component(c, w, h, oc, seed) && |filled| <= |Component(c, w, h, oc, seed)|
  {
    forall p | p in filled ensures p in Component(c, w, h, oc, seed) {
      assert Connected(c, w, h, oc, seed, p);
    }
    SubsetSize(filled, Component(c, w, h, oc, seed));
  }

  lemma {:induction false} SubsetSize(a: set<Point>, b: set<Point>)
    requires a <= b
    ensures |a| <= |b|
  {
    if a != {} {
      var x :| x in a;
      SubsetSize(a - {x}, b - {x});
    }
  }

  lemma WholeComponent(c: Canvas, w: nat, h: nat, oc: int, seed: Point, filled: set<Point>)
    requires forall p :: Connected(c, w, h, oc, seed, p) ==> p in filled
    ensures Component(c, w, h, oc, seed) <= filled
  {}

  /**
   * Fills from a pixel with a stack of `room` places; pixels for which there is no place are dropped.
   * Every recoloured pixel is connected to the seed through its colour. All connected ones are recoloured if the stack
   * has three places for each of them and one more.
   */
  method FloodFill(canvas: array<int>, w: nat, h: nat, room: nat, x: int, y: int, nc: int)
    returns (ghost filled: set<Point>, ghost dropped: bool)
    requires canvas.Length == w * h && room > 0
    modifies canvas
    ensures Painted(old(canvas[..]), canvas[..], w, h, filled, nc)
    ensures forall p :: p in filled ==>
      Connected(old(canvas[..]), w, h, Colour(old(canvas[..]), w, h, Point(x, y)), Point(x, y), p)
    ensures !dropped && Inside(w, h, Point(x, y)) && Colour(old(canvas[..]), w, h, Point(x, y)) != nc ==>
      forall p :: Connected(old(canvas[..]), w, h, Colour(old(canvas[..]), w, h, Point(x, y)), Point(x, y), p) ==>
        p in filled
    ensures dropped ==> room < 3 * |filled| + 1
    ensures
      var oc := Colour(old(canvas[..]), w, h, Point(x, y));
      Inside(w, h, Point(x, y)) && oc != nc ==>
        && canvas[..] == Filled(old(canvas[..]), w, h, room, oc, nc, [Point(x, y)])
        && (room >= 3 * |Component(old(canvas[..]), w, h, oc, Point(x, y))| + 1 ==>
          filled == Component(old(canvas[..]), w, h, oc, Point(x, y)))
    ensures !Inside(w, h, Point(x, y)) || Colour(old(canvas[..]), w, h, Point(x, y)) == nc ==>
      canvas[..] == old(canvas[..])
  {
    hide Painted, Connected, Idx, Colour, Filling, Pixels, Filled, Component, Neighbours;
    ghost var c0, seed := canvas[..], Point(x, y);
    filled, dropped := {}, false;
    Unpainted(c0, w, h, nc);
    if x < 0 || y < 0 || x >= w || y >= h {
      return;
    }
    SeedColour(c0, w, h, seed);
    var oc := canvas[y * w + x];
    if oc == nc {
      return;
    }
    var stack := new Point[room](_ => Point(0, 0));
    stack[0] := Point(x, y);
    var sp := 1;
    assert stack[..sp] == [seed];
    FillStart(c0, w, h, oc, nc, seed, room);
    while sp > 0
      invariant 0 <= sp <= stack.Length == room
      invariant Filling(c0, canvas[..], w, h, oc, nc, seed, filled, stack[..sp], room, dropped)
      invariant Filled(canvas[..], w, h, room, oc, nc, stack[..sp]) == Filled(c0, w, h, room, oc, nc, [seed])
      decreases |Pixels(w, h) - filled|, sp
    {
      ghost var todo := stack[..sp];
      sp := sp - 1;
      var p := stack[sp];
      assert todo == stack[..sp] + [p];
      FillPixel(c0, canvas[..], w, h, oc, nc, seed, filled, stack[..sp], p, room, dropped);
      FilledPop(canvas[..], w, h, room, oc, nc, stack[..sp], p);
      if p.x < 0 || p.y < 0 || p.x >= w || p.y >= h {
        continue;
      }
      if canvas[p.y * w + p.x] != oc {
        continue;
      }
      ghost var rest, c1 := stack[..sp], canvas[..];
      canvas[p.y * w + p.x] := nc;
      var full;
      sp, full := PushNeighbours(stack, sp, p);
      FillStep(c0, c1, w, h, oc, nc, seed, filled, rest, stack[..sp], p, room, dropped, full);
      dropped := dropped || full;
      filled := filled + {p};
    }
    FillEnd(c0, canvas[..], w, h, oc, nc, seed, filled, stack[..sp], room, dropped);
    FilledNothing(canvas[..], w, h, room, oc, nc, stack[..sp]);
    WithinComponent(c0, w, h, oc, seed, filled);
    if !dropped {
      WholeComponent(c0, w, h, oc, seed, filled);
    }
  }

  lemma FilledNothing(c: Canvas, w: nat, h: nat, room: nat, oc: int, nc: int, todo: seq<Point>)
    requires oc != nc && todo == []
    ensures Filled(c, w, h, room, oc, nc, todo) == c
  {}

  /**
   * Half-way: what is filled is connected, what is on the stack is connected if it is to be filled, and nothing else is
   * missing.
   */
  ghost predicate Filling(c0: Canvas, c: Canvas, w: nat, h: nat, oc: int, nc: int, seed: Point, filled: set<Point>,
                          todo: seq<Point>, room: nat, dropped: bool)
  {
    && Painted(c0, c, w, h, filled, nc) && filled <= Pixels(w, h) && Inside(w, h, seed)
    && Colour(c0, w, h, seed) == oc != nc
    && (forall p :: p in filled ==> Connected(c0, w, h, oc, seed, p))
    && (forall k :: 0 <= k < |todo| && Inside(w, h, todo[k]) && Colour(c0, w, h, todo[k]) == oc ==>
       Connected(c0, w, h, oc, seed, todo[k]))
    && (!dropped ==> Closed(c0, w, h, oc, filled, todo) && (seed in filled || seed in todo))
    && |todo| <= 3 * |filled| + 1 && (dropped ==> room < 3 * |filled| + 1)
  }

  lemma FillStart(c0: Canvas, w: nat, h: nat, oc: int, nc: int, seed: Point, room: nat)
    requires |c0| == w * h && Inside(w, h, seed) && Colour(c0, w, h, seed) == oc != nc
    ensures Filling(c0, c0, w, h, oc, nc, seed, {}, [seed], room, false)
  {
    Unpainted(c0, w, h, nc);
    ConnectedSelf(c0, w, h, oc, seed);
    hide Connected, Colour;
  }

  /** The pixel on top: where it is, and that it may leave the stack if it is outside or has not the old colour. */
  lemma FillPixel(c0: Canvas, c: Canvas, w: nat, h: nat, oc: int, nc: int, seed: Point, filled: set<Point>,
                  rest: seq<Point>, p: Point, room: nat, dropped: bool)
    requires Filling(c0, c, w, h, oc, nc, seed, filled, rest + [p], room, dropped)
    ensures Inside(w, h, p) ==> 0 <= Idx(w, p) < |c| && Idx(w, p) == p.y * w + p.x
    ensures !Inside(w, h, p) || c[p.y * w + p.x] != oc ==>
      Filling(c0, c, w, h, oc, nc, seed, filled, rest, room, dropped)
  {
    hide Connected, Painted, Colour, Pixels;
    if Inside(w, h, p) {
      PaintedAt(c0, c, w, h, filled, nc, p);
    }
    assert forall k :: 0 <= k < |rest| ==> (rest + [p])[k] == rest[k];
    if !dropped && (!Inside(w, h, p) || c[p.y * w + p.x] != oc) {
      PopDone(c0, w, h, oc, filled, rest, p);
    }
    hide Closed;
  }

  /** A pixel of the old colour is filled and its neighbours are pushed, as far as there is room. */
  lemma FillStep(c0: Canvas, c: Canvas, w: nat, h: nat, oc: int, nc: int, seed: Point, filled: set<Point>,
                 rest: seq<Point>, todo: seq<Point>, p: Point, room: nat, dropped: bool, full: bool)
    requires Filling(c0, c, w, h, oc, nc, seed, filled, rest + [p], room, dropped)
    requires Inside(w, h, p) && 0 <= Idx(w, p) < |c| && c[Idx(w, p)] == oc
    requires |rest| <= |todo| <= |rest| + 4 && todo == rest + Neighbours(p)[..|todo| - |rest|]
    requires if full then |todo| == room && |todo| < |rest| + 4 else |todo| == |rest| + 4
    ensures Filling(c0, c[Idx(w, p) := nc], w, h, oc, nc, seed, filled + {p}, todo, room, dropped || full)
    ensures |Pixels(w, h) - (filled + {p})| < |Pixels(w, h) - filled|
  {
    hide Connected, Painted, Colour, Pixels, Idx, Neighbours;
    PaintedAt(c0, c, w, h, filled, nc, p);
    PaintOne(c0, c, w, h, filled, nc, p);
    assert (rest + [p])[|rest|] == p && forall k :: 0 <= k < |rest| ==> (rest + [p])[k] == rest[k];
    PushedConnected(c0, w, h, oc, seed, rest, todo, p);
    if !full && !dropped {
      PushedClosed(c0, w, h, oc, filled, rest, todo, p);
    }
    assert Pixels(w, h) - (filled + {p}) == (Pixels(w, h) - filled) - {p} && p in Pixels(w, h);
    hide Closed;
  }

  lemma FillEnd(c0: Canvas, c: Canvas, w: nat, h: nat, oc: int, nc: int, seed: Point, filled: set<Point>,
                todo: seq<Point>, room: nat, dropped: bool)
    requires Filling(c0, c, w, h, oc, nc, seed, filled, todo, room, dropped) && todo == []
    ensures Painted(c0, c, w, h, filled, nc) && (forall p :: p in filled ==> Connected(c0, w, h, oc, seed, p))
    ensures (!dropped ==> forall p :: Connected(c0, w, h, oc, seed, p) ==> p in filled)
    ensures (dropped ==> room < 3 * |filled| + 1)
  {
    hide Connected, Painted, Closed, Colour, Pixels;
    if !dropped {
      forall p | Connected(c0, w, h, oc, seed, p) ensures p in filled {
        ClosedIsWhole(c0, w, h, oc, seed, filled, p);
      }
    }
  }

  /** Pushes the four neighbours of a pixel while there is room. */
  method PushNeighbours(stack: array<Point>, sp0: nat, p: Point) returns (sp: nat, full: bool)
    requires sp0 < stack.Length
    modifies stack
    ensures sp0 <= sp <= stack.Length && sp - sp0 <= 4 && stack[..sp] == old(stack[..sp0]) + Neighbours(p)[..sp - sp0]
    ensures if full then sp == stack.Length && sp - sp0 < 4 else sp - sp0 == 4
    ensures sp - sp0 == Fit(stack.Length, sp0)
  {
    sp, full := sp0, false;
    var near := Neighbours(p);
    for i := 0 to 4
      invariant sp == sp0 + i <= stack.Length && stack[..sp] == old(stack[..sp0]) + near[..i]
    {
      if sp >= stack.Length {
        full := true;
        break;
      }
      stack[sp] := near[i];
      sp := sp + 1;
      assert stack[..sp] == stack[..sp - 1] + [near[i]];
    }
  }

  lemma Unpainted(c0: Canvas, w: nat, h: nat, nc: int)
    requires |c0| == w * h
    ensures Painted(c0, c0, w, h, {}, nc)
  {
  }

  lemma SeedColour(c0: Canvas, w: nat, h: nat, p: Point)
    requires |c0| == w * h && Inside(w, h, p)
    ensures 0 <= Idx(w, p) < |c0| && Idx(w, p) == p.y * w + p.x && Colour(c0, w, h, p) == c0[Idx(w, p)]
  {
    IdxInside(w, h, p);
  }

  lemma PaintedAt(c0: Canvas, c: Canvas, w: nat, h: nat, filled: set<Point>, nc: int, p: Point)
    requires Painted(c0, c, w, h, filled, nc) && Inside(w, h, p)
    ensures 0 <= Idx(w, p) < |c| && Idx(w, p) == p.y * w + p.x
    ensures c[Idx(w, p)] == if p in filled then nc else Colour(c0, w, h, p)
  {
    SeedColour(c, w, h, p);
  }

  lemma PaintOne(c0: Canvas, c: Canvas, w: nat, h: nat, filled: set<Point>, nc: int, p: Point)
    requires Painted(c0, c, w, h, filled, nc) && Inside(w, h, p)
    ensures 0 <= Idx(w, p) < |c| && Painted(c0, c[Idx(w, p) := nc], w, h, filled + {p}, nc)
  {
    IdxInside(w, h, p);
    hide Idx;
    forall q | Inside(w, h, q) ensures Colour(c[Idx(w, p) := nc], w, h, q) == if q in filled + {p} then nc
      else Colour(c0, w, h, q)
    {
      IdxInside(w, h, q);
      if Idx(w, q) == Idx(w, p) {
        IdxInjective(w, h, p, q);
      }
    }
  }

  /** A pixel that need not be filled may leave the stack. */
  lemma PopDone(c0: Canvas, w: nat, h: nat, oc: int, filled: set<Point>, rest: seq<Point>, p: Point)
    requires Closed(c0, w, h, oc, filled, rest + [p]) && (p in filled || !Inside(w, h, p) || Colour(c0, w, h, p) != oc)
    ensures Closed(c0, w, h, oc, filled, rest)
  {
  }

  lemma PushedConnected(c0: Canvas, w: nat, h: nat, oc: int, seed: Point, rest: seq<Point>, todo: seq<Point>, p: Point)
    requires Connected(c0, w, h, oc, seed, p) && |rest| <= |todo| <= |rest| + 4
    requires todo == rest + Neighbours(p)[..|todo| - |rest|]
    requires forall k :: 0 <= k < |rest| && Inside(w, h, rest[k]) && Colour(c0, w, h, rest[k]) == oc ==>
      Connected(c0, w, h, oc, seed, rest[k])
    ensures forall k :: 0 <= k < |todo| && Inside(w, h, todo[k]) && Colour(c0, w, h, todo[k]) == oc ==>
      Connected(c0, w, h, oc, seed, todo[k])
  {
    hide Colour, Connected;
    forall k | 0 <= k < |todo| && Inside(w, h, todo[k]) && Colour(c0, w, h, todo[k]) == oc
      ensures Connected(c0, w, h, oc, seed, todo[k])
    {
      if k >= |rest| {
        assert todo[k] == Neighbours(p)[k - |rest|];
        ConnectedNext(c0, w, h, oc, seed, p, todo[k]);
      } else {
        assert todo[k] == rest[k];
      }
    }
  }

  lemma PushedClosed(c0: Canvas, w: nat, h: nat, oc: int, filled: set<Point>, rest: seq<Point>, todo: seq<Point>,
                     p: Point)
    requires Closed(c0, w, h, oc, filled, rest + [p]) && |todo| == |rest| + 4 && todo == rest + Neighbours(p)[..4]
    ensures Closed(c0, w, h, oc, filled + {p}, todo) && forall q :: q in rest ==> q in todo
  {
    assert Neighbours(p)[..4] == Neighbours(p);
    hide Neighbours, Colour;
  }
}
