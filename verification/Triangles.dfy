/**
 What rings contain and how large they are, down to triangles: where an edge passes a point, which points a triangle
 contains, its area, and that every ring is the fan of its triangles.
 */
module Triangles {
  import opened Algebra
  import opened Plane
  import opened Rings
  import opened Distance

  // ---------- Edges ----------

  /** Some point of the edge lies at the height of `p`, strictly to its right. */
  ghost predicate PassesRight(a: Point, b: Point, p: Point) {
    exists t: real :: 0.0 <= t <= 1.0 && Along(a, b, t).y == p.y && p.x < Along(a, b, t).x
  }

  lemma BackAlong(a: Point, b: Point, t: real)
    ensures Along(b, a, 1.0 - t) == Along(a, b, t)
  {
    Backwards(a.x, b.x, t);
    Backwards(a.y, b.y, t);
  }

  lemma Backwards(a: real, b: real, t: real)
    ensures b + (1.0 - t) * (a - b) == a + t * (b - a)
  {
  }

  /** An edge that straddles a height has a point there, where the crossing test looks for it. */
  lemma MeetingPoint(a: Point, b: Point, y: real) returns (t: real)
    requires Straddles(a, b, y)
    ensures 0.0 <= t <= 1.0 && Along(a, b, t) == Point(MeetsAt(a, b, y), y)
  {
    if a.y > y {
      MeetsAtIsSymmetric(a, b, y);
      t := MeetingPointUpward(b, a, y);
      BackAlong(b, a, t);
      t := 1.0 - t;
    } else {
      t := MeetingPointUpward(a, b, y);
    }
  }

  lemma MeetingPointUpward(a: Point, b: Point, y: real) returns (t: real)
    requires a.y <= y < b.y
    ensures 0.0 <= t <= 1.0 && Along(a, b, t) == Point(MeetsAt(a, b, y), y)
  {
    var d := b.y - a.y;
    t := (y - a.y) / d;
    FractionIsProper(y - a.y, d);
    Quotient(y - a.y, d);
    var u := (b.x - a.x) * (y - a.y) / d;
    assert u * d == (t * (b.x - a.x)) * d;
    Cancel(u, t * (b.x - a.x), d);
  }

  lemma OnePointPerHeight(a: Point, b: Point, s: real, t: real)
    requires a.y != b.y && Along(a, b, s).y == Along(a, b, t).y
    ensures s == t
  {
    Cancel(s, t, b.y - a.y);
  }

  /** The crossing test in words of the edge's points alone. */
  lemma CrossesIffPassesRight(a: Point, b: Point, p: Point)
    ensures Crosses(a, b, p) <==> Straddles(a, b, p.y) && PassesRight(a, b, p)
  {
    hide MeetsAt, Along;
    if Straddles(a, b, p.y) {
      var t := MeetingPoint(a, b, p.y);
      if PassesRight(a, b, p) {
        var s: real :| 0.0 <= s <= 1.0 && Along(a, b, s).y == p.y && p.x < Along(a, b, s).x;
        OnePointPerHeight(a, b, s, t);
      }
    }
  }

  // ---------- Triangles ----------

  function Blend(a: Point, b: Point, c: Point, u: real, v: real, w: real): Point {
    Point(u * a.x + v * b.x + w * c.x, u * a.y + v * b.y + w * c.y)
  }

  ghost predicate InClosedTriangle(a: Point, b: Point, c: Point, p: Point) {
    exists u: real, v: real, w: real ::
      0.0 <= u && 0.0 <= v && 0.0 <= w && u + v + w == 1.0 && p == Blend(a, b, c, u, v, w)
  }

  ghost predicate InOpenTriangle(a: Point, b: Point, c: Point, p: Point) {
    exists u: real, v: real, w: real ::
      0.0 < u && 0.0 < v && 0.0 < w && u + v + w == 1.0 && p == Blend(a, b, c, u, v, w)
  }

  /** Which way one turns at `b` on the way from `a` to `c`: positive to the left, zero straight on or back. */
  function Turn(a: Point, b: Point, c: Point): real {
    (b.x - a.x) * (c.y - a.y) - (b.y - a.y) * (c.x - a.x)
  }

  lemma TriangleWalk(a: Point, b: Point, c: Point, p: Point)
    ensures Inside([a, b, c], p) == (Crosses(c, a, p) != (Crosses(a, b, p) != Crosses(b, c, p)))
    ensures SignedArea([a, b, c]) == (Cross(c, a) + Cross(a, b) + Cross(b, c)) / 2.0
  {
    hide Crosses, Cross;
    var w2, w1, w0 := [b, c], [a, b, c], Closed([a, b, c]);
    assert w1[1..] == w2 && w0[1..] == w1;
    OneEdge(b, c, p);
    assert OddCrossings(w1, p) == (Crosses(b, a, p) != OddCrossings(w2, p));
    assert OddCrossings(w0, p) == (Crosses(a, c, p) != OddCrossings(w1, p));
    assert Swept(w1) == Cross(a, b) + Swept(w2);
    CrossesIsSymmetric(a, b, p);
    CrossesIsSymmetric(b, c, p);
    CrossesIsSymmetric(c, a, p);
  }

  // ---------- Nothing outside ----------

  lemma ClosedTriangleOf(a: Point, b: Point, c: Point, u: real, v: real, w: real, p: Point)
    requires 0.0 <= u && 0.0 <= v && 0.0 <= w && u + v + w == 1.0 && p == Blend(a, b, c, u, v, w)
    ensures InClosedTriangle(a, b, c, p) && InClosedTriangle(b, c, a, p) && InClosedTriangle(c, a, b, p)
    ensures InClosedTriangle(a, c, b, p) && InClosedTriangle(b, a, c, p) && InClosedTriangle(c, b, a, p)
  {
    assert p == Blend(b, c, a, v, w, u) == Blend(c, a, b, w, u, v);
    assert p == Blend(a, c, b, u, w, v) == Blend(b, a, c, v, u, w) == Blend(c, b, a, w, v, u);
  }

  lemma CornersInAnyOrder(a: Point, b: Point, c: Point, p: Point)
    requires InClosedTriangle(a, b, c, p)
    ensures InClosedTriangle(b, c, a, p) && InClosedTriangle(c, a, b, p)
    ensures InClosedTriangle(a, c, b, p) && InClosedTriangle(b, a, c, p) && InClosedTriangle(c, b, a, p)
  {
    hide Blend;
    var u: real, v: real, w: real :|
      0.0 <= u && 0.0 <= v && 0.0 <= w && u + v + w == 1.0 && p == Blend(a, b, c, u, v, w);
    ClosedTriangleOf(a, b, c, u, v, w, p);
  }

  /** A point between two points of the edges that leave a corner. */
  lemma BetweenTwoEdges(a: Point, b: Point, c: Point, s: real, t: real, r: real)
    requires 0.0 <= s <= 1.0 && 0.0 <= t <= 1.0 && 0.0 <= r <= 1.0
    ensures InClosedTriangle(a, b, c, Along(Along(a, c, t), Along(a, b, s), r))
  {
    hide Along, Blend, InClosedTriangle, IsShare;
    var v := Share(r, s);
    var w := Share(1.0 - r, t);
    AlongIsBlend(a, b, c, s, t, r, 1.0 - v - w, v, w);
    ClosedTriangleOf(a, b, c, 1.0 - v - w, v, w, Along(Along(a, c, t), Along(a, b, s), r));
  }

  predicate IsShare(v: real, r: real, s: real) {
    v == r * s
  }

  lemma Share(r: real, s: real) returns (v: real)
    requires 0.0 <= r && 0.0 <= s <= 1.0
    ensures IsShare(v, r, s) && 0.0 <= v <= r
  {
    v := r * s;
  }

  function Between(a: real, b: real, s: real): real {
    a + s * (b - a)
  }

  function Mean(a: real, b: real, c: real, u: real, v: real, w: real): real {
    u * a + v * b + w * c
  }

  lemma AlongIsBlend(a: Point, b: Point, c: Point, s: real, t: real, r: real, u: real, v: real, w: real)
    requires IsShare(v, r, s) && IsShare(w, 1.0 - r, t) && u == 1.0 - v - w
    ensures Along(Along(a, c, t), Along(a, b, s), r) == Blend(a, b, c, u, v, w)
  {
    hide Along, Blend, Between, Mean, IsShare;
    AlongBetween(a, c, t);
    AlongBetween(a, b, s);
    AlongBetween(Along(a, c, t), Along(a, b, s), r);
    BlendIsMean(a, b, c, u, v, w);
    MeanOfBetween(a.x, b.x, c.x, s, t, r, u, v, w);
    MeanOfBetween(a.y, b.y, c.y, s, t, r, u, v, w);
  }

  lemma AlongBetween(a: Point, b: Point, s: real)
    ensures Along(a, b, s) == Point(Between(a.x, b.x, s), Between(a.y, b.y, s))
  {
  }

  lemma BlendIsMean(a: Point, b: Point, c: Point, u: real, v: real, w: real)
    ensures Blend(a, b, c, u, v, w) == Point(Mean(a.x, b.x, c.x, u, v, w), Mean(a.y, b.y, c.y, u, v, w))
  {
  }

  lemma Regroup(r: real, s: real, d: real)
    ensures r * (s * d) == (r * s) * d
  {
  }

  lemma MeanOfBetween(a: real, b: real, c: real, s: real, t: real, r: real, u: real, v: real, w: real)
    requires IsShare(v, r, s) && IsShare(w, 1.0 - r, t) && u == 1.0 - v - w
    ensures Between(Between(a, c, t), Between(a, b, s), r) == Mean(a, b, c, u, v, w)
  {
    var x, y := s * (b - a), t * (c - a);
    Regroup(r, s, b - a);
    Regroup(1.0 - r, t, c - a);
    assert r * x == v * (b - a) && (1.0 - r) * y == w * (c - a);
    calc {
      Between(Between(a, c, t), Between(a, b, s), r);
      (a + y) + r * ((a + x) - (a + y));
      a + r * x + (1.0 - r) * y;
      a + v * (b - a) + w * (c - a);
      Mean(a, b, c, u, v, w);
    }
  }

  /** Between an edge that passes on the right and one that does not: inside the triangle they span. */
  lemma Wedge(a: Point, b: Point, c: Point, p: Point)
    requires Crosses(a, b, p) && Straddles(a, c, p.y) && !Crosses(a, c, p)
    ensures InClosedTriangle(a, b, c, p)
  {
    hide MeetsAt, Along, InClosedTriangle;
    var s := MeetingPoint(a, b, p.y);
    var t := MeetingPoint(a, c, p.y);
    var left, right := MeetsAt(a, c, p.y), MeetsAt(a, b, p.y);
    var r := PartOfTheWay(left, right, p.x);
    LevelAlong(left, right, p.y, r);
    BetweenTwoEdges(a, b, c, s, t, r);
  }

  lemma PartOfTheWay(left: real, right: real, x: real) returns (r: real)
    requires left <= x < right
    ensures 0.0 <= r <= 1.0 && left + r * (right - left) == x
  {
    r := (x - left) / (right - left);
    FractionIsProper(x - left, right - left);
    Quotient(x - left, right - left);
  }

  lemma LevelAlong(left: real, right: real, y: real, r: real)
    ensures Along(Point(left, y), Point(right, y), r) == Point(left + r * (right - left), y)
  {
  }

  /** A triangle, degenerate or not, contains no point outside its closed hull. */
  lemma TriangleContainsNothingElse(a: Point, b: Point, c: Point, p: Point)
    requires Inside([a, b, c], p)
    ensures InClosedTriangle(a, b, c, p)
  {
    hide MeetsAt, Inside, InClosedTriangle;
    TriangleWalk(a, b, c, p);
    CrossesIsSymmetric(a, b, p);
    CrossesIsSymmetric(b, c, p);
    CrossesIsSymmetric(c, a, p);
    if Straddles(a, b, p.y) && Straddles(c, a, p.y) {
      InWedge(a, b, c, p);
    } else if Straddles(a, b, p.y) && Straddles(b, c, p.y) {
      InWedge(b, c, a, p);
      CornersInAnyOrder(b, c, a, p);
    } else {
      InWedge(c, a, b, p);
      CornersInAnyOrder(c, a, b, p);
    }
  }

  lemma InWedge(a: Point, b: Point, c: Point, p: Point)
    requires Straddles(a, b, p.y) && Straddles(a, c, p.y) && Crosses(a, b, p) != Crosses(a, c, p)
    ensures InClosedTriangle(a, b, c, p)
  {
    hide MeetsAt, InClosedTriangle;
    if Crosses(a, b, p) {
      Wedge(a, b, c, p);
    } else {
      Wedge(a, c, b, p);
      CornersInAnyOrder(a, c, b, p);
    }
  }

  // ---------- Everything inside ----------

  /** Seen along the edge, the test asks on which side the point lies. */
  lemma CrossesByTurn(a: Point, b: Point, p: Point)
    requires Straddles(a, b, p.y)
    ensures Crosses(a, b, p) <==> if a.y <= p.y then Turn(a, b, p) > 0.0 else Turn(a, b, p) < 0.0
  {
    hide MeetsAt;
    if a.y <= p.y {
      CrossesByTurnUpward(a, b, p);
    } else {
      CrossesIsSymmetric(a, b, p);
      CrossesByTurnUpward(b, a, p);
      TurnBack(a, b, p);
    }
  }

  lemma TurnBack(a: Point, b: Point, p: Point)
    ensures Turn(b, a, p) == -Turn(a, b, p)
  {
  }

  lemma CrossesByTurnUpward(a: Point, b: Point, p: Point)
    requires a.y <= p.y < b.y
    ensures Crosses(a, b, p) <==> Turn(a, b, p) > 0.0
  {
    var d, m := b.y - a.y, MeetsAt(a, b, p.y);
    var q := (b.x - a.x) * (p.y - a.y) / d;
    Quotient((b.x - a.x) * (p.y - a.y), d);
    assert m == q + a.x;
    TurnIsOffset(a, b, p, d, q);
    SignOfProduct(d, q + a.x - p.x);
  }

  lemma TurnIsOffset(a: Point, b: Point, p: Point, d: real, q: real)
    requires d == b.y - a.y && q * d == (b.x - a.x) * (p.y - a.y)
    ensures Turn(a, b, p) == d * (q + a.x - p.x)
  {
  }

  lemma SignOfProduct(d: real, x: real)
    requires d > 0.0
    ensures d * x > 0.0 <==> x > 0.0
  {
    if x > 0.0 {
      PositiveProduct(d, x);
    } else {
      assert d * x <= 0.0;
    }
  }

  /** How far a blend lies from its first corner. */
  lemma FromCorner(a: real, b: real, c: real, u: real, v: real, w: real, x: real)
    requires u + v + w == 1.0 && x == u * a + v * b + w * c
    ensures x - a == v * (b - a) + w * (c - a)
  {
    assert u == 1.0 - v - w;
  }

  lemma Bilinear(x1: real, y1: real, x2: real, y2: real, v: real, w: real, x: real, y: real)
    requires x == v * x1 + w * x2 && y == v * y1 + w * y2
    ensures x1 * y - y1 * x == w * (x1 * y2 - y1 * x2)
  {
    calc {
      x1 * y - y1 * x;
      x1 * (v * y1 + w * y2) - y1 * (v * x1 + w * x2);
      w * (x1 * y2 - y1 * x2);
    }
  }

  lemma TurnFromCorner(a: Point, b: Point, c: Point, u: real, v: real, w: real, p: Point)
    requires u + v + w == 1.0 && p == Blend(a, b, c, u, v, w)
    ensures Turn(a, b, p) == w * Turn(a, b, c)
  {
    FromCorner(a.x, b.x, c.x, u, v, w, p.x);
    FromCorner(a.y, b.y, c.y, u, v, w, p.y);
    Bilinear(b.x - a.x, b.y - a.y, c.x - a.x, c.y - a.y, v, w, p.x - a.x, p.y - a.y);
  }

  lemma SameTurn(a: Point, b: Point, c: Point)
    ensures Turn(b, c, a) == Turn(a, b, c)
  {
  }

  lemma TurnOfBlend(a: Point, b: Point, c: Point, u: real, v: real, w: real, p: Point)
    requires u + v + w == 1.0 && p == Blend(a, b, c, u, v, w)
    ensures Turn(a, b, p) == w * Turn(a, b, c)
    ensures Turn(b, c, p) == u * Turn(a, b, c)
    ensures Turn(c, a, p) == v * Turn(a, b, c)
  {
    hide Turn;
    assert p == Blend(b, c, a, v, w, u) == Blend(c, a, b, w, u, v);
    hide Blend;
    TurnFromCorner(a, b, c, u, v, w, p);
    TurnFromCorner(b, c, a, v, w, u, p);
    TurnFromCorner(c, a, b, w, u, v, p);
    SameTurn(a, b, c);
    SameTurn(b, c, a);
  }

  /** A mean with positive weights lies between: not above all, and not below or level with all unless all are equal. */
  lemma MeanIsBetween(a: real, b: real, c: real, u: real, v: real, w: real, y: real)
    requires 0.0 < u && 0.0 < v && 0.0 < w && u + v + w == 1.0 && y == u * a + v * b + w * c
    ensures !(a > y && b > y && c > y)
    ensures a <= y && b <= y && c <= y ==> a == b == c
  {
    var x1, x2, x3 := a - y, b - y, c - y;
    assert u * x1 + v * x2 + w * x3 == 0.0 by {
      MeanOfDifferences(a, b, c, u, v, w, y);
    }
    SignOfProduct(u, x1);
    SignOfProduct(v, x2);
    SignOfProduct(w, x3);
    SignOfProduct(u, -x1);
    SignOfProduct(v, -x2);
    SignOfProduct(w, -x3);
    MinusProduct(u, x1);
    MinusProduct(v, x2);
    MinusProduct(w, x3);
  }

  lemma MeanOfDifferences(a: real, b: real, c: real, u: real, v: real, w: real, y: real)
    requires u + v + w == 1.0 && y == u * a + v * b + w * c
    ensures u * (a - y) + v * (b - y) + w * (c - y) == 0.0
  {
    calc {
      u * (a - y) + v * (b - y) + w * (c - y);
      (u * a + v * b + w * c) - (u + v + w) * y;
      0.0;
    }
  }

  lemma MinusProduct(u: real, x: real)
    ensures u * -x == -(u * x)
  {
  }

  lemma LevelCornersDoNotTurn(a: Point, b: Point, c: Point)
    requires a.y == b.y == c.y
    ensures Turn(a, b, c) == 0.0
  {
  }

  /** A triangle whose corners are not on one line contains every point strictly inside its hull. */
  lemma TriangleContainsItsInside(a: Point, b: Point, c: Point, p: Point)
    requires Turn(a, b, c) != 0.0 && InOpenTriangle(a, b, c, p)
    ensures Inside([a, b, c], p)
  {
    hide MeetsAt, Inside, Turn, Blend, Crosses, Cross;
    var u: real, v: real, w: real :|
      0.0 < u && 0.0 < v && 0.0 < w && u + v + w == 1.0 && p == Blend(a, b, c, u, v, w);
    TurnOfBlend(a, b, c, u, v, w, p);
    TriangleWalk(a, b, c, p);
    BetweenCorners(a, b, c, u, v, w, p);
    SameSide(w, Turn(a, b, c));
    SameSide(u, Turn(a, b, c));
    SameSide(v, Turn(a, b, c));
    EdgeByTurn(a, b, p);
    EdgeByTurn(b, c, p);
    EdgeByTurn(c, a, p);
  }

  lemma BetweenCorners(a: Point, b: Point, c: Point, u: real, v: real, w: real, p: Point)
    requires 0.0 < u && 0.0 < v && 0.0 < w && u + v + w == 1.0 && p == Blend(a, b, c, u, v, w)
    requires Turn(a, b, c) != 0.0
    ensures (a.y > p.y) != (b.y > p.y) || (b.y > p.y) != (c.y > p.y)
  {
    hide Turn;
    MeanIsBetween(a.y, b.y, c.y, u, v, w, p.y);
    if a.y == b.y == c.y {
      LevelCornersDoNotTurn(a, b, c);
    }
  }

  lemma SameSide(w: real, turn: real)
    requires w > 0.0
    ensures turn > 0.0 ==> w * turn > 0.0
    ensures turn < 0.0 ==> w * turn < 0.0
  {
    SignOfProduct(w, turn);
    SignOfProduct(w, -turn);
    MinusProduct(w, turn);
  }

  /** An edge is crossed when it straddles and the point is on its left going up, or on its right going down. */
  lemma EdgeByTurn(a: Point, b: Point, p: Point)
    ensures Crosses(a, b, p) <==>
      || (a.y <= p.y < b.y && Turn(a, b, p) > 0.0)
      || (b.y <= p.y < a.y && Turn(a, b, p) < 0.0)
  {
    hide MeetsAt, Turn;
    if Straddles(a, b, p.y) {
      CrossesByTurn(a, b, p);
    }
  }

  // ---------- Fans ----------

  /** Whether an odd number of the triangles fanned out from a corner contain a point. */
  ghost function FanOdd(a: Point, rest: seq<Point>, p: Point): bool {
    if |rest| < 2 then false
    else Inside([a, rest[0], rest[1]], p) != FanOdd(a, rest[1..], p)
  }

  ghost function FanArea(a: Point, rest: seq<Point>): real {
    if |rest| < 2 then 0.0
    else SignedArea([a, rest[0], rest[1]]) + FanArea(a, rest[1..])
  }

  lemma TwoCorners(a: Point, b: Point, p: Point)
    ensures !Inside([a, b], p) && !Inside([a], p) && SignedArea([a, b]) == SignedArea([a]) == 0.0
  {
    assert Closed([a, b])[1..] == [a, b];
    OneEdge(a, b, p);
    OneEdge(a, a, p);
    assert OddCrossings(Closed([a, b]), p) == (Crosses(a, b, p) != OddCrossings([a, b], p));
    assert Swept(Closed([a, b])) == Cross(b, a) + Swept([a, b]);
    CrossesIsSymmetric(a, b, p);
  }

  /** Every ring is the fan of its triangles: it contains what an odd number of them contain, and areas add. */
  lemma {:induction false} RingIsItsFan(a: Point, rest: seq<Point>, p: Point)
    ensures Inside([a] + rest, p) == FanOdd(a, rest, p)
    ensures SignedArea([a] + rest) == FanArea(a, rest)
  {
    hide Inside, SignedArea;
    if |rest| < 2 {
      assert [a] + rest == if rest == [] then [a] else [a, rest[0]];
      TwoCorners(a, if rest == [] then a else rest[0], p);
    } else {
      RingIsItsFan(a, rest[1..], p);
      SplittingTheRing(a, [rest[0]], rest[1], rest[2..], p);
      RotatingTheRing([a], rest[1..], p);
      assert [a] + rest == [a] + [rest[0]] + [rest[1]] + rest[2..];
      assert [a, rest[0], rest[1]] == [a] + [rest[0]] + [rest[1]];
      assert [rest[1]] + rest[2..] + [a] == rest[1..] + [a];
    }
  }

  // ---------- Areas ----------

  /** Sliding a corner along the opposite side's direction keeps the area. */
  lemma SlidingACornerKeepsTheArea(a: Point, b: Point, c: Point, s: real)
    ensures var d := Point(c.x + s * (b.x - a.x), c.y + s * (b.y - a.y));
      SignedArea([a, b, d]) == SignedArea([a, b, c])
  {
    var d := Point(c.x + s * (b.x - a.x), c.y + s * (b.y - a.y));
    var p := Point(0.0, 0.0);
    TriangleWalk(a, b, c, p);
    TriangleWalk(a, b, d, p);
    SlidCross(a, b, c, s, d);
  }

  lemma SlidCross(a: Point, b: Point, c: Point, s: real, d: Point)
    requires d.x == c.x + s * (b.x - a.x) && d.y == c.y + s * (b.y - a.y)
    ensures Cross(d, a) + Cross(a, b) + Cross(b, d) == Cross(c, a) + Cross(a, b) + Cross(b, c)
  {
    var e, f := s * (b.x - a.x), s * (b.y - a.y);
    Regroup(b.y - a.y, s, b.x - a.x);
    assert (b.x - a.x) * f == (b.y - a.y) * e;
    assert Cross(d, a) + Cross(b, d) == Cross(c, a) + Cross(b, c) + (b.x - a.x) * f - (b.y - a.y) * e;
  }

  /** A right triangle has half the area of its rectangle. */
  lemma RightTriangleIsHalfARectangle(corner: Point, w: real, h: real)
    ensures SignedArea([corner, Point(corner.x + w, corner.y), Point(corner.x, corner.y + h)]) == w * h / 2.0
  {
    var b, c := Point(corner.x + w, corner.y), Point(corner.x, corner.y + h);
    TriangleWalk(corner, b, c, corner);
    assert Cross(c, corner) + Cross(corner, b) + Cross(b, c) == w * h;
  }

  /** The signed area of a triangle is half its turn, positive when its corners go round to the left. */
  lemma TriangleIsHalfItsTurn(a: Point, b: Point, c: Point)
    ensures SignedArea([a, b, c]) == Turn(a, b, c) / 2.0
  {
    TriangleWalk(a, b, c, a);
    assert Cross(c, a) + Cross(a, b) + Cross(b, c) == Turn(a, b, c);
  }
}
