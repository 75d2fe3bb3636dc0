/**
 * `drawConnections`, main.js:200-215: a line between every two molecules
 * closer than `maxDistance`, fading linearly with distance. The model
 * collects the lines `(i, j, alpha)` that the nested loop would draw.
 */
module Connections {
  import opened P5Helpers
  import opened Molecules

  /** `maxDistance`, main.js:201. */
  const MaxDistance: real := 100.0

  /** Stroke opacity at distance 0, the `100` of `map(dist, 0, maxDistance, 100, 0)`. */
  const FullAlpha: real := 100.0

  datatype Point = Point(x: real, y: real)

  /** p5 `dist(x1, y1, x2, y2)`, supplied by the drawing library. */
  type Distance = (real, real, real, real) -> real

  /** A line drawn between molecules `i` and `j` with stroke opacity `alpha`. */
  datatype Line = Line(i: nat, j: nat, alpha: real)

  function DistanceOf(dist: Distance, p: Point, q: Point): real {
    dist(p.x, p.y, q.x, q.y)
  }

  function DistSq(p: Point, q: Point): real {
    (p.x - q.x) * (p.x - q.x) + (p.y - q.y) * (p.y - q.y)
  }

  /** `dist` is the Euclidean distance. */
  ghost predicate Euclidean(dist: Distance) {
    forall x1, y1, x2, y2 ::
      dist(x1, y1, x2, y2) >= 0.0
      && dist(x1, y1, x2, y2) * dist(x1, y1, x2, y2) == (x1 - x2) * (x1 - x2) + (y1 - y2) * (y1 - y2)
  }

  /** The opacity main.js:208 gives a line of length `d`. */
  function Alpha(d: real): real {
    Map(d, 0.0, MaxDistance, FullAlpha, 0.0)
  }

  /** `alpha` falls linearly from 100 at distance 0 and lies in `(0, 100]` below the threshold. */
  lemma AlphaFades(d: real)
    ensures Alpha(d) == FullAlpha - d
    ensures 0.0 <= d < MaxDistance ==> 0.0 < Alpha(d) <= FullAlpha
    ensures d == 0.0 ==> Alpha(d) == FullAlpha
  {
  }

  /** The test of main.js:207. */
  predicate Close(ps: seq<Point>, dist: Distance, i: nat, j: nat)
    requires i < |ps| && j < |ps|
  {
    DistanceOf(dist, ps[i], ps[j]) < MaxDistance
  }

  /** The line, if any, for the pair `(i, j)`: the body of the inner loop. */
  function PairLine(ps: seq<Point>, dist: Distance, i: nat, j: nat): seq<Line>
    requires i < j < |ps|
  {
    var d := DistanceOf(dist, ps[i], ps[j]);
    if d < MaxDistance then [Line(i, j, Alpha(d))] else []
  }

  /** The lines of the inner loop over `j .. |ps|-1` for a fixed `i`. */
  function RowFrom(ps: seq<Point>, dist: Distance, i: nat, j: nat): seq<Line>
    requires i < j <= |ps|
    decreases |ps| - j
  {
    if j == |ps| then [] else PairLine(ps, dist, i, j) + RowFrom(ps, dist, i, j + 1)
  }

  /** The lines of the outer loop over `i .. |ps|-1`. */
  function PairsFrom(ps: seq<Point>, dist: Distance, i: nat): seq<Line>
    requires i <= |ps|
    decreases |ps| - i
  {
    if i == |ps| then [] else RowFrom(ps, dist, i, i + 1) + PairsFrom(ps, dist, i + 1)
  }

  /** Every line drawn for the molecules at `ps`, in drawing order. */
  function AllLines(ps: seq<Point>, dist: Distance): seq<Line> {
    PairsFrom(ps, dist, 0)
  }

  /** What it takes for `l` to be one of the lines of the pair `(l.i, l.j)`. */
  predicate Drawn(ps: seq<Point>, dist: Distance, l: Line) {
    l.i < l.j < |ps| && Close(ps, dist, l.i, l.j)
    && l.alpha == Alpha(DistanceOf(dist, ps[l.i], ps[l.j]))
  }

  /** `a` comes before `b` in the `(i, j)` loop order. */
  predicate Before(a: Line, b: Line) {
    a.i < b.i || (a.i == b.i && a.j < b.j)
  }

  predicate InLoopOrder(lines: seq<Line>) {
    forall p, q :: 0 <= p < q < |lines| ==> Before(lines[p], lines[q])
  }

  lemma {:induction false} RowFromMembers(ps: seq<Point>, dist: Distance, i: nat, j: nat, l: Line)
    requires i < j <= |ps|
    ensures l in RowFrom(ps, dist, i, j) <==> l.i == i && j <= l.j && Drawn(ps, dist, l)
    decreases |ps| - j
  {
    if j < |ps| {
      RowFromMembers(ps, dist, i, j + 1, l);
      var here, rest := PairLine(ps, dist, i, j), RowFrom(ps, dist, i, j + 1);
      assert RowFrom(ps, dist, i, j) == here + rest;
      assert l in here + rest <==> l in here || l in rest;
    }
  }

  lemma {:induction false} PairsFromMembers(ps: seq<Point>, dist: Distance, i: nat, l: Line)
    requires i <= |ps|
    ensures l in PairsFrom(ps, dist, i) <==> i <= l.i && Drawn(ps, dist, l)
    decreases |ps| - i
  {
    if i < |ps| {
      RowFromMembers(ps, dist, i, i + 1, l);
      PairsFromMembers(ps, dist, i + 1, l);
      var row, rest := RowFrom(ps, dist, i, i + 1), PairsFrom(ps, dist, i + 1);
      assert PairsFrom(ps, dist, i) == row + rest;
      assert l in row + rest <==> l in row || l in rest;
    }
  }

  /**
   * A line is drawn exactly for each pair `i < j` of molecules closer than
   * `maxDistance`, with the opacity `map` gives its distance; never for a
   * molecule with itself.
   */
  lemma AllLinesExactly(ps: seq<Point>, dist: Distance, l: Line)
    ensures l in AllLines(ps, dist) <==> Drawn(ps, dist, l)
  {
    PairsFromMembers(ps, dist, 0, l);
  }

  lemma {:induction false} RowFromOrdered(ps: seq<Point>, dist: Distance, i: nat, j: nat)
    requires i < j <= |ps|
    ensures InLoopOrder(RowFrom(ps, dist, i, j))
    ensures forall l :: l in RowFrom(ps, dist, i, j) ==> l.i == i && j <= l.j
    decreases |ps| - j
  {
    if j < |ps| {
      RowFromOrdered(ps, dist, i, j + 1);
      forall l | l in RowFrom(ps, dist, i, j + 1) ensures l.i == i && j < l.j {
        RowFromMembers(ps, dist, i, j + 1, l);
      }
    }
  }

  lemma {:induction false} PairsFromOrdered(ps: seq<Point>, dist: Distance, i: nat)
    requires i <= |ps|
    ensures InLoopOrder(PairsFrom(ps, dist, i))
    ensures forall l :: l in PairsFrom(ps, dist, i) ==> i <= l.i
    decreases |ps| - i
  {
    if i < |ps| {
      RowFromOrdered(ps, dist, i, i + 1);
      PairsFromOrdered(ps, dist, i + 1);
      var row, rest := RowFrom(ps, dist, i, i + 1), PairsFrom(ps, dist, i + 1);
      forall p, q | 0 <= p < q < |row + rest| ensures Before((row + rest)[p], (row + rest)[q]) {
        if q >= |row| && p < |row| {
          assert row[p] in row;
          assert rest[q - |row|] in rest;
        }
      }
    }
  }

  /** The lines come in loop order, so no pair is drawn twice. */
  lemma AllLinesOnce(ps: seq<Point>, dist: Distance)
    ensures InLoopOrder(AllLines(ps, dist))
    ensures forall p, q :: 0 <= p < q < |AllLines(ps, dist)| ==>
      (AllLines(ps, dist)[p].i, AllLines(ps, dist)[p].j) != (AllLines(ps, dist)[q].i, AllLines(ps, dist)[q].j)
  {
    PairsFromOrdered(ps, dist, 0);
  }

  lemma ProductPositive(a: real, b: real)
    requires a > 0.0 && b > 0.0
    ensures a * b > 0.0
  {
  }

  /** Squaring is strictly increasing on non-negative reals. */
  lemma SquareIncreasing(a: real, b: real)
    requires 0.0 <= a < b
    ensures a * a < b * b
  {
    ProductPositive(b - a, b + a);
    assert (b - a) * (b + a) == b * b - a * a;
  }

  /** With Euclidean `dist`, the threshold is a test on the squared distance; coincident molecules are at 0. */
  lemma EuclideanThreshold(dist: Distance, p: Point, q: Point)
    requires Euclidean(dist)
    ensures DistanceOf(dist, p, q) < MaxDistance <==> DistSq(p, q) < MaxDistance * MaxDistance
    ensures p == q ==> DistanceOf(dist, p, q) == 0.0
  {
    var d := DistanceOf(dist, p, q);
    assert d >= 0.0 && d * d == DistSq(p, q);
    if d < MaxDistance {
      SquareIncreasing(d, MaxDistance);
    } else if d > MaxDistance {
      SquareIncreasing(MaxDistance, d);
    }
    if d > 0.0 {
      SquareIncreasing(0.0, d);
    }
  }

  /** Alpha of a drawn line, for Euclidean `dist`: in `(0, 100]`, and 100 when the two coincide. */
  lemma DrawnAlpha(ps: seq<Point>, dist: Distance, l: Line)
    requires Euclidean(dist) && Drawn(ps, dist, l)
    ensures 0.0 < l.alpha <= FullAlpha
    ensures l.alpha == FullAlpha - DistanceOf(dist, ps[l.i], ps[l.j])
    ensures ps[l.i] == ps[l.j] ==> l.alpha == FullAlpha
  {
    var d := DistanceOf(dist, ps[l.i], ps[l.j]);
    EuclideanThreshold(dist, ps[l.i], ps[l.j]);
    AlphaFades(d);
  }

  /** Three molecules at (0,50), (50,50), (200,50): one line, between the first two, at alpha 50. */
  lemma ThreeMoleculesExample(dist: Distance)
    requires Euclidean(dist)
    ensures AllLines([Point(0.0, 50.0), Point(50.0, 50.0), Point(200.0, 50.0)], dist) == [Line(0, 1, 50.0)]
  {
    var ps := [Point(0.0, 50.0), Point(50.0, 50.0), Point(200.0, 50.0)];
    var d01, d02, d12 := DistanceOf(dist, ps[0], ps[1]), DistanceOf(dist, ps[0], ps[2]), DistanceOf(dist, ps[1], ps[2]);
    assert d01 >= 0.0 && d01 * d01 == 2500.0;
    assert d01 == 50.0 by {
      if d01 < 50.0 { SquareIncreasing(d01, 50.0); }
      if d01 > 50.0 { SquareIncreasing(50.0, d01); }
    }
    EuclideanThreshold(dist, ps[0], ps[2]);
    EuclideanThreshold(dist, ps[1], ps[2]);
    AlphaFades(d01);
    assert RowFrom(ps, dist, 0, 1) == [Line(0, 1, 50.0)];
    assert RowFrom(ps, dist, 1, 2) == [];
  }

  /** One pass of the inner loop body: the pair `(i, j)` moves from the rest of the row into the lines drawn. */
  lemma InnerStep(ps: seq<Point>, dist: Distance, i: nat, j: nat, done: seq<Line>, next: seq<Line>)
    requires i < j < |ps|
    requires done + RowFrom(ps, dist, i, j) + PairsFrom(ps, dist, i + 1) == AllLines(ps, dist)
    requires var d := DistanceOf(dist, ps[i], ps[j]);
      next == if d < MaxDistance then done + [Line(i, j, Alpha(d))] else done
    ensures next + RowFrom(ps, dist, i, j + 1) + PairsFrom(ps, dist, i + 1) == AllLines(ps, dist)
  {
    var here, rest, later := PairLine(ps, dist, i, j), RowFrom(ps, dist, i, j + 1), PairsFrom(ps, dist, i + 1);
    assert next == done + here;
    assert RowFrom(ps, dist, i, j) == here + rest;
    ConcatAssoc(done, here, rest, later);
  }

  lemma ConcatAssoc(a: seq<Line>, b: seq<Line>, c: seq<Line>, d: seq<Line>)
    ensures a + (b + c) + d == (a + b) + c + d
  {
  }

  /** Entering row `i` of the outer loop. */
  lemma OuterStep(ps: seq<Point>, dist: Distance, i: nat, done: seq<Line>)
    requires i < |ps|
    requires done + PairsFrom(ps, dist, i) == AllLines(ps, dist)
    ensures done + RowFrom(ps, dist, i, i + 1) + PairsFrom(ps, dist, i + 1) == AllLines(ps, dist)
  {
    assert PairsFrom(ps, dist, i) == RowFrom(ps, dist, i, i + 1) + PairsFrom(ps, dist, i + 1);
  }

  /** Leaving row `i` of the outer loop. */
  lemma OuterEnd(ps: seq<Point>, dist: Distance, i: nat, done: seq<Line>)
    requires i < |ps|
    requires done + RowFrom(ps, dist, i, |ps|) + PairsFrom(ps, dist, i + 1) == AllLines(ps, dist)
    ensures done + PairsFrom(ps, dist, i + 1) == AllLines(ps, dist)
  {
    assert RowFrom(ps, dist, i, |ps|) == [];
    assert done + [] == done;
  }

  /** The positions of the molecules, in array order. */
  ghost function Positions(molecules: seq<Molecule>): (ps: seq<Point>)
    reads molecules
    ensures |ps| == |molecules|
    ensures forall k :: 0 <= k < |ps| ==> ps[k] == Point(molecules[k].x, molecules[k].y)
  {
    seq(|molecules|, k reads molecules requires 0 <= k < |molecules| => Point(molecules[k].x, molecules[k].y))
  }

  /** `drawConnections(p, molecules)`, main.js:200-215, returning the lines instead of drawing them. */
  method DrawConnections(molecules: seq<Molecule>, dist: Distance) returns (lines: seq<Line>)
    ensures lines == AllLines(Positions(molecules), dist)
  {
    ghost var ps := Positions(molecules);
    var n := |molecules|;
    lines := [];
    var i := 0;
    while i < n
      invariant 0 <= i <= n
      invariant lines + PairsFrom(ps, dist, i) == AllLines(ps, dist)
    {
      OuterStep(ps, dist, i, lines);
      var j := i + 1;
      while j < n
        invariant i + 1 <= j <= n
        invariant lines + RowFrom(ps, dist, i, j) + PairsFrom(ps, dist, i + 1) == AllLines(ps, dist)
      {
        var d := dist(molecules[i].x, molecules[i].y, molecules[j].x, molecules[j].y);
        ghost var done := lines;
        if d < MaxDistance {
          var alpha := Map(d, 0.0, MaxDistance, FullAlpha, 0.0);
          lines := lines + [Line(i, j, alpha)];
        }
        InnerStep(ps, dist, i, j, done, lines);
        j := j + 1;
      }
      OuterEnd(ps, dist, i, lines);
      i := i + 1;
    }
  }
}
