/** Which tracks pass close enough to a point: squared distances to segments, with exact reals. */
module Distance {
  import opened Algebra
  import opened Plane

  function SquaredDistance(a: Point, b: Point): real {
    (a.x - b.x) * (a.x - b.x) + (a.y - b.y) * (a.y - b.y)
  }

  /** The point a fraction `s` of the way from `start` to `end`. */
  function Along(start: Point, end: Point, s: real): Point {
    Point(start.x + s * (end.x - start.x), start.y + s * (end.y - start.y))
  }

  function Clamp(t: real): real {
    Max(0.0, Min(1.0, t))
  }

  function Minus(a: Point, b: Point): Point {
    Point(a.x - b.x, a.y - b.y)
  }

  function Dot(a: Point, b: Point): real {
    a.x * b.x + a.y * b.y
  }

  /** The source's clamped projection of `p` on a segment; a degenerate segment is its start. */
  function Projection(p: Point, start: Point, end: Point): Point {
    var d := Minus(end, start);
    if d.x == 0.0 && d.y == 0.0 then start
    else
      SquaresArePositive(d);
      var t := Dot(Minus(p, start), d) / Dot(d, d);
      Along(start, end, Clamp(t))
  }

  /** `distance <= reach`, stated on the squared distance. */
  predicate AtMost(squaredDistance: real, reach: real) {
    0.0 <= reach && squaredDistance <= reach * reach
  }

  lemma SquaresArePositive(d: Point)
    requires d.x != 0.0 || d.y != 0.0
    ensures Dot(d, d) > 0.0
  {
    calc {
      Dot(d, d);
      d.x * d.x + d.y * d.y;
    > { SumOfSquaresIsPositive(d.x, d.y); }
      0.0;
    }
  }

  /** The squared distance along a segment, as a quadratic in the fraction `s`. */
  function Quadratic(u: real, w: real, e: real, s: real): real {
    u - 2.0 * s * w + s * s * e
  }

  lemma DistanceAlong(p: Point, start: Point, end: Point, s: real)
    ensures SquaredDistance(p, Along(start, end, s))
         == Quadratic(Dot(Minus(p, start), Minus(p, start)), Dot(Minus(p, start), Minus(end, start)),
                      Dot(Minus(end, start), Minus(end, start)), s)
  {
    var u, v := Minus(p, start), Minus(end, start);
    SquareOfDifference(u.x, s, v.x);
    SquareOfDifference(u.y, s, v.y);
    assert p.x - (start.x + s * (end.x - start.x)) == u.x - s * v.x;
    assert p.y - (start.y + s * (end.y - start.y)) == u.y - s * v.y;
    Gather(s, u.x * v.x, u.y * v.y, v.x * v.x, v.y * v.y);
  }

  /** Completing the square: the quadratic grows with the distance of `s` from the unclamped foot `t`. */
  lemma NearerFootIsLower(u: real, w: real, e: real, f: real, s: real, t: real)
    requires t * e == w && e > 0.0
    requires (f - t) * (f - t) <= (s - t) * (s - t)
    ensures Quadratic(u, w, e, f) <= Quadratic(u, w, e, s)
  {
    CompleteTheSquare(u, w, e, f, t);
    CompleteTheSquare(u, w, e, s, t);
    Monotone((f - t) * (f - t), (s - t) * (s - t), e);
  }

  lemma CompleteTheSquare(u: real, w: real, e: real, s: real, t: real)
    requires t * e == w
    ensures Quadratic(u, w, e, s) == u - t * t * e + (s - t) * (s - t) * e
  {
    assert s * w == s * t * e;
    assert (s - t) * (s - t) == s * s - 2.0 * (s * t) + t * t;
    assert (s - t) * (s - t) * e == s * s * e - 2.0 * (s * t) * e + t * t * e;
  }

  /** Clamping to [0, 1] moves `t` no farther than to any other number of [0, 1]. */
  lemma ClampIsNearest(t: real, s: real)
    requires 0.0 <= s <= 1.0
    ensures (Clamp(t) - t) * (Clamp(t) - t) <= (s - t) * (s - t)
  {
    var c := Clamp(t);
    if t < 0.0 {
      SquaresGrow(c - t, s - t);
    } else if t > 1.0 {
      SquaresGrow(t - c, t - s);
      assert (t - c) * (t - c) == (c - t) * (c - t);
      assert (t - s) * (t - s) == (s - t) * (s - t);
    } else {
      SquareIsNonNegative(s - t);
      assert c - t == 0.0;
    }
  }

  /** What a non-degenerate segment needs: the quadratic's coefficients and its lowest point. */
  lemma SegmentProfile(p: Point, start: Point, end: Point) returns (u: real, w: real, e: real)
    requires start != end
    ensures e > 0.0 && (w / e) * e == w
    ensures Projection(p, start, end) == Along(start, end, Clamp(w / e))
    ensures forall s {:trigger Along(start, end, s)} ::
      SquaredDistance(p, Along(start, end, s)) == Quadratic(u, w, e, s)
  {
    var d := Minus(end, start);
    SquaresArePositive(d);
    u, w, e := Dot(Minus(p, start), Minus(p, start)), Dot(Minus(p, start), d), Dot(d, d);
    Quotient(w, e);
    forall s
      ensures SquaredDistance(p, Along(start, end, s)) == Quadratic(u, w, e, s)
    {
      DistanceAlong(p, start, end, s);
    }
  }

  /** The projection lies on the segment and no point of the segment is nearer. */
  lemma ProjectionIsNearest(p: Point, start: Point, end: Point, s: real) returns (foot: real)
    requires 0.0 <= s <= 1.0
    ensures 0.0 <= foot <= 1.0 && Projection(p, start, end) == Along(start, end, foot)
    ensures SquaredDistance(p, Projection(p, start, end)) <= SquaredDistance(p, Along(start, end, s))
  {
    if start == end {
      foot := 0.0;
    } else {
      var u, w, e := SegmentProfile(p, start, end);
      foot := Clamp(w / e);
      ClampIsNearest(w / e, s);
      NearerFootIsLower(u, w, e, foot, s, w / e);
    }
  }

  // ---------- Tracks ----------

  /** Some point of the segment lies within reach of `p`. */
  ghost predicate SegmentInReach(p: Point, start: Point, end: Point, reach: real) {
    exists s: real :: 0.0 <= s <= 1.0 && AtMost(SquaredDistance(p, Along(start, end, s)), reach)
  }

  /** Some point of some line of the track lies within half a swath of `p`. */
  ghost predicate Covers(track: Track, p: Point) {
    exists l, k :: 0 <= l < |track.lines| && 1 <= k < |track.lines[l]|
      && SegmentInReach(p, track.lines[l][k - 1], track.lines[l][k], track.swath / 2.0)
  }

  ghost function Passes(tracks: seq<Track>, p: Point): nat {
    if tracks == [] then 0
    else Passes(tracks[..|tracks| - 1], p) + if Covers(tracks[|tracks| - 1], p) then 1 else 0
  }

  /** The source's distance test decides whether a segment comes within reach. */
  lemma ProjectionDecides(p: Point, start: Point, end: Point, reach: real)
    ensures AtMost(SquaredDistance(p, Projection(p, start, end)), reach) <==> SegmentInReach(p, start, end, reach)
  {
    var foot := ProjectionIsNearest(p, start, end, 0.0);
    if SegmentInReach(p, start, end, reach) {
      var s: real :| 0.0 <= s <= 1.0 && AtMost(SquaredDistance(p, Along(start, end, s)), reach);
      var _ := ProjectionIsNearest(p, start, end, s);
    }
  }

  /** How many tracks cover `p`; each track is left at its first segment in reach. */
  method CoveragePasses(p: Point, tracks: seq<Track>) returns (passes: nat)
    ensures passes == Passes(tracks, p)
  {
    passes := 0;
    for i := 0 to |tracks|
      invariant passes == Passes(tracks[..i], p)
    {
      var track := tracks[i];
      var covered := false;
      var l := 0;
      while l < |track.lines| && !covered
        invariant 0 <= l <= |track.lines|
        invariant covered ==> Covers(track, p)
        invariant !covered ==> forall m, k | 0 <= m < l && 1 <= k < |track.lines[m]| ::
          !SegmentInReach(p, track.lines[m][k - 1], track.lines[m][k], track.swath / 2.0)
      {
        var line := track.lines[l];
        var index := 1;
        while index < |line|
          invariant 1 <= index
          invariant !covered
          invariant forall k | 1 <= k < index && k < |line| ::
            !SegmentInReach(p, line[k - 1], line[k], track.swath / 2.0)
        {
          ProjectionDecides(p, line[index - 1], line[index], track.swath / 2.0);
          if AtMost(SquaredDistance(p, Projection(p, line[index - 1], line[index])), track.swath / 2.0) {
            covered := true;
            assert track.lines[l][index] == line[index];
            break;
          }
          index := index + 1;
        }
        l := l + 1;
      }
      if covered {
        passes := passes + 1;
      }
      assert tracks[..i + 1][..i] == tracks[..i];
    }
    assert tracks[..|tracks|] == tracks;
  }
}
