/**
 Linear rings (RFC 7946, section 3.1.6): the even-odd containment test and the shoelace area,
 both as closed walks over edges.
 */
module Rings {
  import opened Algebra
  import opened Plane

  /** Where the line through `a` and `b` meets the horizontal line at height `y`. */
  function MeetsAt(a: Point, b: Point, y: real): real
    requires a.y != b.y
  {
    (b.x - a.x) * (y - a.y) / (b.y - a.y) + a.x
  }

  predicate Straddles(a: Point, b: Point, y: real) {
    (a.y > y) != (b.y > y)
  }

  /** The edge from `b` to `a` crosses the ray that leaves `p` to the right. */
  predicate Crosses(a: Point, b: Point, p: Point) {
    Straddles(a, b, p.y) && p.x < MeetsAt(a, b, p.y)
  }

  lemma MeetsAtIsSymmetric(a: Point, b: Point, y: real)
    requires a.y != b.y
    ensures MeetsAt(a, b, y) == MeetsAt(b, a, y)
  {
    var d := b.y - a.y;
    var u := (b.x - a.x) * (y - a.y) / d;
    var v := (a.x - b.x) * (y - b.y) / (a.y - b.y);
    assert u * d == (b.x - a.x) * (y - a.y);
    assert v * (a.y - b.y) == (a.x - b.x) * (y - b.y);
    assert (v + b.x - a.x) * d == u * d;
    Cancel(v + b.x - a.x, u, d);
  }

  lemma CrossesIsSymmetric(a: Point, b: Point, p: Point)
    ensures Crosses(a, b, p) == Crosses(b, a, p)
  {
    if Straddles(a, b, p.y) {
      MeetsAtIsSymmetric(a, b, p.y);
    }
  }

  /** A straddling edge meets the horizontal line between its two ends. */
  lemma MeetsBetween(a: Point, b: Point, y: real)
    requires Straddles(a, b, y)
    ensures Min(a.x, b.x) <= MeetsAt(a, b, y) <= Max(a.x, b.x)
  {
    if a.y > y {
      MeetsAtIsSymmetric(a, b, y);
      MeetsBetweenUpward(b, a, y);
    } else {
      MeetsBetweenUpward(a, b, y);
    }
  }

  lemma MeetsBetweenUpward(a: Point, b: Point, y: real)
    requires a.y <= y < b.y
    ensures Min(a.x, b.x) <= MeetsAt(a, b, y) <= Max(a.x, b.x)
  {
    var d := b.y - a.y;
    var t := (y - a.y) / d;
    FractionIsProper(y - a.y, d);
    var u := (b.x - a.x) * (y - a.y) / d;
    assert u * d == ((b.x - a.x) * t) * d;
    Cancel(u, (b.x - a.x) * t, d);
    PartOf(b.x - a.x, t);
  }

  lemma PartOf(w: real, t: real)
    requires 0.0 <= t <= 1.0
    ensures Min(0.0, w) <= w * t <= Max(0.0, w)
  {
    if w >= 0.0 {
      assert w * t <= w * 1.0;
    } else {
      assert -w * t <= -w * 1.0;
      assert -w * t >= 0.0;
      assert w * t == -(-w * t);
    }
  }

  // ---------- Walks ----------

  /** Whether an odd number of a walk's edges cross the ray from `p`. */
  function OddCrossings(walk: seq<Point>, p: Point): bool {
    if |walk| < 2 then false
    else Crosses(walk[1], walk[0], p) != OddCrossings(walk[1..], p)
  }

  function Cross(a: Point, b: Point): real {
    a.x * b.y - b.x * a.y
  }

  /** Twice the signed area swept along a walk, seen from the origin. */
  function Swept(walk: seq<Point>): real {
    if |walk| < 2 then 0.0
    else Cross(walk[0], walk[1]) + Swept(walk[1..])
  }

  function Reversed(walk: seq<Point>): (r: seq<Point>)
    ensures |r| == |walk|
  {
    if walk == [] then [] else Reversed(walk[1..]) + [walk[0]]
  }

  lemma {:induction false} CrossingsJoin(u: seq<Point>, m: Point, v: seq<Point>, p: Point)
    ensures OddCrossings(u + [m] + v, p) == (OddCrossings(u + [m], p) != OddCrossings([m] + v, p))
  {
    if u == [] {
      assert u + [m] + v == [m] + v;
    } else {
      CrossingsJoin(u[1..], m, v, p);
      assert (u + [m] + v)[1..] == u[1..] + [m] + v;
      assert (u + [m])[1..] == u[1..] + [m];
    }
  }

  lemma {:induction false} SweptJoin(u: seq<Point>, m: Point, v: seq<Point>)
    ensures Swept(u + [m] + v) == Swept(u + [m]) + Swept([m] + v)
  {
    if u == [] {
      assert u + [m] + v == [m] + v;
    } else {
      SweptJoin(u[1..], m, v);
      assert (u + [m] + v)[1..] == u[1..] + [m] + v;
      assert (u + [m])[1..] == u[1..] + [m];
    }
  }

  /** A walk of one edge. */
  lemma OneEdge(a: Point, b: Point, p: Point)
    ensures OddCrossings([a, b], p) == Crosses(b, a, p)
    ensures Swept([a, b]) == Cross(a, b)
  {
    assert [a, b][1..] == [b];
  }

  lemma CrossingsSnoc(walk: seq<Point>, p: Point, q: Point)
    requires walk != []
    ensures OddCrossings(walk + [q], p) == (OddCrossings(walk, p) != Crosses(q, walk[|walk| - 1], p))
  {
    var last := |walk| - 1;
    assert walk == walk[..last] + [walk[last]];
    CrossingsJoin(walk[..last], walk[last], [q], p);
    OneEdge(walk[last], q, p);
    assert [walk[last]] + [q] == [walk[last], q];
  }

  lemma SweptSnoc(walk: seq<Point>, q: Point)
    requires walk != []
    ensures Swept(walk + [q]) == Swept(walk) + Cross(walk[|walk| - 1], q)
  {
    var last := |walk| - 1;
    assert walk == walk[..last] + [walk[last]];
    SweptJoin(walk[..last], walk[last], [q]);
    OneEdge(walk[last], q, q);
    assert [walk[last]] + [q] == [walk[last], q];
  }

  lemma {:induction false} CrossingsReverse(walk: seq<Point>, p: Point)
    ensures OddCrossings(Reversed(walk), p) == OddCrossings(walk, p)
  {
    if |walk| >= 2 {
      CrossingsReverse(walk[1..], p);
      var u := Reversed(walk[1..][1..]);
      assert Reversed(walk) == u + [walk[1]] + [walk[0]];
      CrossingsJoin(u, walk[1], [walk[0]], p);
      CrossesIsSymmetric(walk[0], walk[1], p);
      OneEdge(walk[1], walk[0], p);
      assert [walk[1]] + [walk[0]] == [walk[1], walk[0]];
    }
  }

  lemma {:induction false} SweptReverse(walk: seq<Point>)
    ensures Swept(Reversed(walk)) == -Swept(walk)
  {
    if |walk| >= 2 {
      SweptReverse(walk[1..]);
      var u := Reversed(walk[1..][1..]);
      assert Reversed(walk) == u + [walk[1]] + [walk[0]];
      SweptJoin(u, walk[1], [walk[0]]);
      OneEdge(walk[1], walk[0], walk[0]);
      assert [walk[1]] + [walk[0]] == [walk[1], walk[0]];
    }
  }

  // ---------- Rings ----------

  /** The closed walk round a ring, entered from its last position. */
  function Closed(ring: Ring): seq<Point> {
    if ring == [] then [] else [ring[|ring| - 1]] + ring
  }

  /** Even-odd rule: `p` is inside when its ray to the right crosses the ring an odd number of times. */
  function Inside(ring: Ring, p: Point): bool {
    OddCrossings(Closed(ring), p)
  }

  function SignedArea(ring: Ring): real {
    Swept(Closed(ring)) / 2.0
  }

  /** The answer after the first `count` edges, starting with the edge from the last position to the first. */
  ghost function OddSoFar(ring: Ring, p: Point, count: nat): bool
    requires count <= |ring|
  {
    OddCrossings(Closed(ring)[..if ring == [] then 0 else count + 1], p)
  }

  lemma OddSoFarStep(ring: Ring, p: Point, current: nat, previous: nat)
    requires current < |ring| && previous == if current == 0 then |ring| - 1 else current - 1
    ensures OddSoFar(ring, p, current + 1) == (OddSoFar(ring, p, current) != Crosses(ring[current], ring[previous], p))
  {
    var walk := Closed(ring);
    CrossingsSnoc(walk[..current + 1], p, walk[current + 1]);
    assert walk[..current + 1] + [walk[current + 1]] == walk[..current + 2];
  }

  /** The source's ring test, edge by edge with the previous position carried along. */
  method RingContains(ring: Ring, p: Point) returns (inside: bool)
    ensures inside == Inside(ring, p)
  {
    inside := false;
    var current, previous := 0, |ring| - 1;
    while current < |ring|
      invariant 0 <= current <= |ring|
      invariant previous == if current == 0 then |ring| - 1 else current - 1
      invariant inside == OddSoFar(ring, p, current)
    {
      OddSoFarStep(ring, p, current, previous);
      var intersects := Crosses(ring[current], ring[previous], p);
      if intersects {
        inside := !inside;
      }
      previous, current := current, current + 1;
    }
    assert Closed(ring)[..|Closed(ring)|] == Closed(ring);
  }

  /** Twice the area after the first `count` terms of the shoelace sum. */
  ghost function Partial(ring: Ring, count: nat): real
    requires count <= |ring|
  {
    if count < |ring| then Swept(ring[..count + 1]) else Swept(Closed(ring))
  }

  lemma Successor(index: nat, n: nat)
    requires index < n
    ensures (index + 1) % n == if index + 1 < n then index + 1 else 0
  {
  }

  lemma PartialStep(ring: Ring, index: nat, next: nat)
    requires index < |ring| && next == if index + 1 < |ring| then index + 1 else 0
    ensures Partial(ring, index + 1) == Partial(ring, index) + Cross(ring[index], ring[next])
  {
    if next != 0 {
      SweptSnoc(ring[..index + 1], ring[index + 1]);
      assert ring[..index + 1] + [ring[index + 1]] == ring[..index + 2];
    } else {
      assert ring[..|ring|] == ring;
      assert Closed(ring)[1..] == ring;
    }
  }

  /** The source's shoelace sum, with the successor index taken modulo the ring's length. */
  method RingArea(ring: Ring) returns (area: real)
    ensures area == SignedArea(ring)
  {
    area := 0.0;
    for index := 0 to |ring|
      invariant area == Partial(ring, index)
    {
      var next := (index + 1) % |ring|;
      Successor(index, |ring|);
      PartialStep(ring, index, next);
      area := area + Cross(ring[index], ring[next]);
    }
    area := area / 2.0;
  }

  // ---------- A ring's meaning does not depend on how it is written down ----------

  lemma ClosedAtTheEnd(ring: Ring, p: Point)
    requires ring != []
    ensures OddCrossings(ring + [ring[0]], p) == Inside(ring, p)
    ensures Swept(ring + [ring[0]]) == 2.0 * SignedArea(ring)
  {
    var last := |ring| - 1;
    assert ring == ring[..last] + [ring[last]];
    CrossingsJoin(ring[..last], ring[last], [ring[0]], p);
    SweptJoin(ring[..last], ring[last], [ring[0]]);
    assert [ring[last]] + [ring[0]] == [ring[last], ring[0]];
    OneEdge(ring[last], ring[0], p);
    assert Closed(ring)[1..] == ring;
  }

  /** Starting the ring at another of its vertices changes nothing. */
  lemma RotatingTheRing(u: Ring, v: Ring, p: Point)
    ensures Inside(v + u, p) == Inside(u + v, p)
    ensures SignedArea(v + u) == SignedArea(u + v)
  {
    if u == [] {
      assert u + v == v == v + u;
    } else if v == [] {
      assert u + v == u == v + u;
    } else {
      CrossingsOfJoin(u, v, p);
      CrossingsOfJoin(v, u, p);
      SweptOfJoin(u, v);
      SweptOfJoin(v, u);
    }
  }

  lemma ClosedJoin(u: Ring, v: Ring) returns (lead: seq<Point>, tail: Point)
    requires u != [] && v != []
    ensures Closed(u + v) == lead + [tail] + v
    ensures lead + [tail] == [v[|v| - 1]] + u && tail == u[|u| - 1]
  {
    lead, tail := [v[|v| - 1]] + u[..|u| - 1], u[|u| - 1];
    assert u == u[..|u| - 1] + [tail];
    assert (u + v)[|u + v| - 1] == v[|v| - 1];
    assert lead + [tail] == [v[|v| - 1]] + u;
    assert Closed(u + v) == [v[|v| - 1]] + (u + v) == ([v[|v| - 1]] + u) + v;
  }

  lemma CrossingsOfJoin(u: Ring, v: Ring, p: Point)
    requires u != [] && v != []
    ensures Inside(u + v, p) == (OddCrossings([v[|v| - 1]] + u, p) != OddCrossings([u[|u| - 1]] + v, p))
  {
    var lead, tail := ClosedJoin(u, v);
    CrossingsJoin(lead, tail, v, p);
  }

  lemma SweptOfJoin(u: Ring, v: Ring)
    requires u != [] && v != []
    ensures Swept(Closed(u + v)) == Swept([v[|v| - 1]] + u) + Swept([u[|u| - 1]] + v)
  {
    var lead, tail := ClosedJoin(u, v);
    SweptJoin(lead, tail, v);
  }

  /** Walking the ring the other way keeps containment and negates the signed area. */
  lemma ReversingTheRing(ring: Ring, p: Point)
    ensures Inside(Reversed(ring), p) == Inside(ring, p)
    ensures SignedArea(Reversed(ring)) == -SignedArea(ring)
  {
    if ring != [] {
      var last := |ring| - 1;
      ReversedSnoc(ring, ring[0]);
      assert Reversed(ring) == Reversed(ring[1..]) + [ring[0]];
      assert Closed(Reversed(ring)) == Reversed(ring + [ring[0]]);
      CrossingsReverse(ring + [ring[0]], p);
      SweptReverse(ring + [ring[0]]);
      ClosedAtTheEnd(ring, p);
    }
  }

  lemma {:induction false} ReversedSnoc(walk: seq<Point>, p: Point)
    ensures Reversed(walk + [p]) == [p] + Reversed(walk)
  {
    if walk != [] {
      ReversedSnoc(walk[1..], p);
      assert (walk + [p])[1..] == walk[1..] + [p];
    }
  }

  /** The closing position that RFC 7946 asks for may be present or absent. */
  lemma ClosingTheRing(ring: Ring, p: Point)
    requires ring != []
    ensures Inside(ring + [ring[0]], p) == Inside(ring, p)
    ensures SignedArea(ring + [ring[0]]) == SignedArea(ring)
  {
    assert Closed(ring + [ring[0]])[1..] == ring + [ring[0]];
    ClosedAtTheEnd(ring, p);
  }

  /** Cutting a ring along the diagonal from `a` to `b`: parities add, and so do signed areas. */
  lemma SplittingTheRing(a: Point, u: seq<Point>, b: Point, v: seq<Point>, p: Point)
    ensures Inside([a] + u + [b] + v, p) == (Inside([a] + u + [b], p) != Inside([b] + v + [a], p))
    ensures SignedArea([a] + u + [b] + v) == SignedArea([a] + u + [b]) + SignedArea([b] + v + [a])
  {
    var whole := [a] + u + [b] + v;
    ClosedAtTheEnd(whole, p);
    assert whole + [whole[0]] == ([a] + u) + [b] + (v + [a]);
    CrossingsJoin([a] + u, b, v + [a], p);
    SweptJoin([a] + u, b, v + [a]);
    SplitHalf(a, u, b, p);
    SplitHalf(b, v, a, p);
    assert [b] + (v + [a]) == [b] + v + [a];
    CrossesIsSymmetric(a, b, p);
  }

  lemma SplitHalf(a: Point, u: seq<Point>, b: Point, p: Point)
    ensures Inside([a] + u + [b], p) == (Crosses(a, b, p) != OddCrossings([a] + u + [b], p))
    ensures 2.0 * SignedArea([a] + u + [b]) == Cross(b, a) + Swept([a] + u + [b])
  {
    var half := [a] + u + [b];
    assert Closed(half)[1..] == half;
  }

  function Shift(p: Point, d: Point): Point {
    Point(p.x + d.x, p.y + d.y)
  }

  function ShiftAll(walk: seq<Point>, d: Point): (r: seq<Point>)
    ensures |r| == |walk|
  {
    if walk == [] then [] else [Shift(walk[0], d)] + ShiftAll(walk[1..], d)
  }

  lemma {:induction false} ShiftAllAt(walk: seq<Point>, d: Point, k: nat)
    requires k < |walk|
    ensures ShiftAll(walk, d)[k] == Shift(walk[k], d)
  {
    if k > 0 {
      ShiftAllAt(walk[1..], d, k - 1);
    }
  }

  lemma {:induction false} CrossingsShift(walk: seq<Point>, d: Point, p: Point)
    ensures OddCrossings(ShiftAll(walk, d), Shift(p, d)) == OddCrossings(walk, p)
  {
    if |walk| >= 2 {
      CrossingsShift(walk[1..], d, p);
      assert ShiftAll(walk, d)[1..] == ShiftAll(walk[1..], d);
    }
  }

  lemma {:induction false} SweptShift(walk: seq<Point>, d: Point)
    requires walk != []
    ensures Swept(ShiftAll(walk, d)) == Swept(walk)
      + d.x * (walk[|walk| - 1].y - walk[0].y) - d.y * (walk[|walk| - 1].x - walk[0].x)
  {
    if |walk| >= 2 {
      SweptShift(walk[1..], d);
      assert ShiftAll(walk, d)[1..] == ShiftAll(walk[1..], d);
      CrossShift(walk[0], walk[1], d);
      Telescope(d.x, walk[0].y, walk[1].y, walk[|walk| - 1].y);
      Telescope(d.y, walk[0].x, walk[1].x, walk[|walk| - 1].x);
    }
  }

  lemma CrossShift(a: Point, b: Point, d: Point)
    ensures Cross(Shift(a, d), Shift(b, d)) == Cross(a, b) + d.x * (b.y - a.y) - d.y * (b.x - a.x)
  {
  }

  lemma Telescope(k: real, a: real, b: real, c: real)
    ensures k * (b - a) + k * (c - b) == k * (c - a)
  {
  }

  /** Moving a ring moves what it contains and keeps its area. */
  lemma ShiftingTheRing(ring: Ring, d: Point, p: Point)
    ensures Inside(ShiftAll(ring, d), Shift(p, d)) == Inside(ring, p)
    ensures SignedArea(ShiftAll(ring, d)) == SignedArea(ring)
  {
    if ring != [] {
      ShiftAllAt(ring, d, |ring| - 1);
      assert Closed(ShiftAll(ring, d)) == ShiftAll(Closed(ring), d);
      CrossingsShift(Closed(ring), d, p);
      SweptShift(Closed(ring), d);
    }
  }

  function Rectangle(b: Bounds): Ring {
    [Point(b.minX, b.minY), Point(b.maxX, b.minY), Point(b.maxX, b.maxY), Point(b.minX, b.maxY)]
  }

  lemma RectangleWalk(b: Bounds, p: Point)
    ensures var r := Rectangle(b);
      && Inside(r, p)
           == (Crosses(r[0], r[3], p) != (Crosses(r[1], r[0], p) != (Crosses(r[2], r[1], p) != Crosses(r[3], r[2], p))))
      && Swept(Closed(r)) == Cross(r[3], r[0]) + Cross(r[0], r[1]) + Cross(r[1], r[2]) + Cross(r[2], r[3])
  {
    var r := Rectangle(b);
    var w3, w2, w1, w0 := [r[2], r[3]], [r[1], r[2], r[3]], r, Closed(r);
    assert w2[1..] == w3 && w1[1..] == w2 && w0[1..] == w1;
    OneEdge(r[2], r[3], p);
    assert OddCrossings(w2, p) == (Crosses(r[2], r[1], p) != OddCrossings(w3, p));
    assert OddCrossings(w1, p) == (Crosses(r[1], r[0], p) != OddCrossings(w2, p));
    assert Swept(w2) == Cross(r[1], r[2]) + Swept(w3);
    assert Swept(w1) == Cross(r[0], r[1]) + Swept(w2);
  }

  /** An axis-aligned rectangle contains exactly its half-open box. */
  lemma RectangleIsHalfOpen(b: Bounds, p: Point)
    requires b.minX < b.maxX && b.minY < b.maxY
    ensures Inside(Rectangle(b), p) <==> b.minX <= p.x < b.maxX && b.minY <= p.y < b.maxY
    ensures SignedArea(Rectangle(b)) == b.Width() * b.Height()
  {
    RectangleWalk(b, p);
    var r := Rectangle(b);
    if b.minY <= p.y < b.maxY {
      MeetsBetween(r[2], r[1], p.y);
      MeetsBetween(r[0], r[3], p.y);
    }
  }
}
