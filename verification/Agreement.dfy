/** Two boundaries give the same findings whatever is flown exactly when they measure the same. */
module Agreement {
  import opened Collections
  import opened Algebra
  import opened Wrappers
  import opened Plane
  import opened Polygons
  import opened Distance
  import opened Grid
  import opened Coverage
  import opened CoverageFacts
  import opened Records
  import opened Measures

  /** Tracks as stored runs have them: usable lines and a positive swath. */
  ghost predicate Flown(tracks: seq<Track>) {
    tracks != [] && forall t | t in tracks :: ValidLines(t.lines) && t.swath > 0.0
  }

  // ---------- Tracks that stay at one point ----------

  function Still(p: Point, swath: real): Track {
    Track(1, [[p, p]], swath)
  }

  lemma StillReaches(p: Point, swath: real, q: Point)
    ensures Covers(Still(p, swath), q) <==> Reached(SquaredDistance(q, p), swath)
  {
    hide AtMost, SquaredDistance;
    forall s: real
      ensures Along(p, p, s) == p
    {
    }
    var line := Still(p, swath).lines[0];
    assert line[1 - 1] == p && line[1] == p;
    assert SegmentInReach(q, p, p, swath / 2.0) <==> AtMost(SquaredDistance(q, p), swath / 2.0) by {
      if AtMost(SquaredDistance(q, p), swath / 2.0) {
        assert AtMost(SquaredDistance(q, Along(p, p, 0.0)), swath / 2.0);
      }
    }
  }

  lemma DistinctPointsAreApart(p: Point, q: Point)
    ensures p == q <==> SquaredDistance(p, q) == 0.0
    ensures SquaredDistance(p, q) >= 0.0
  {
    assert SquaredDistance(p, q) == Dot(Minus(p, q), Minus(p, q));
    hide SquaredDistance, Dot;
    if p != q {
      SquaresArePositive(Minus(p, q));
    } else {
      assert Minus(p, q) == Point(0.0, 0.0);
      NoLength();
    }
  }

  lemma NoLength()
    ensures Dot(Point(0.0, 0.0), Point(0.0, 0.0)) == 0.0
  {
  }

  /** A point at this squared distance is within half the swath. */
  predicate Reached(squared: real, swath: real) {
    AtMost(squared, swath / 2.0)
  }

  lemma SmallReach(d: real) returns (swath: real)
    requires d > 0.0
    ensures swath > 0.0 && forall s: real | 0.0 < s <= swath :: !Reached(d, s)
  {
    swath := if d < 1.0 then d else 1.0;
    forall s: real | 0.0 < s <= swath
      ensures !Reached(d, s)
    {
      SmallSquare(s / 2.0);
      NotAtMost(d, s / 2.0);
    }
  }

  lemma NotAtMost(d: real, h: real)
    requires h * h < h <= d
    ensures !AtMost(d, h)
  {
  }

  lemma SmallSquare(h: real)
    requires 0.0 < h < 1.0
    ensures h * h < h
  {
    PositiveProduct(h, 1.0 - h);
  }

  lemma LargeReach(d: real) returns (swath: real)
    requires d >= 0.0
    ensures swath > 0.0 && forall s: real | s >= swath :: Reached(d, s)
  {
    swath := 2.0 * (d + 1.0);
    forall s: real | s >= swath
      ensures Reached(d, s)
    {
      LargeSquare(s / 2.0);
    }
  }

  lemma LargeSquare(h: real)
    requires h >= 1.0
    ensures h * h >= h
  {
    if h > 1.0 {
      PositiveProduct(h, h - 1.0);
    }
  }

  /** A swath so narrow that a still track covers no other point of a finite set. */
  lemma {:induction false} Narrow(points: set<Point>, p: Point) returns (swath: real)
    ensures swath > 0.0
    ensures forall q, s: real | q in points && q != p && 0.0 < s <= swath :: !Covers(Still(p, s), q)
    decreases |points|
  {
    hide Covers, Reached, SquaredDistance;
    if points == {} {
      swath := 1.0;
    } else {
      var q :| q in points;
      var rest := Narrow(points - {q}, p);
      swath := rest;
      if q != p {
        DistinctPointsAreApart(q, p);
        var small := SmallReach(SquaredDistance(q, p));
        swath := if rest < small then rest else small;
        forall s: real | 0.0 < s <= swath
          ensures !Covers(Still(p, s), q)
        {
          StillReaches(p, s, q);
        }
      }
      assert points == (points - {q}) + {q};
    }
  }

  /** A swath so wide that a still track covers all of a finite set. */
  lemma {:induction false} Wide(points: set<Point>, p: Point) returns (swath: real)
    ensures swath > 0.0
    ensures forall q, s: real | q in points && s >= swath :: Covers(Still(p, s), q)
    decreases |points|
  {
    hide Covers, Reached, SquaredDistance;
    if points == {} {
      swath := 1.0;
    } else {
      var q :| q in points;
      var rest := Wide(points - {q}, p);
      DistinctPointsAreApart(q, p);
      var large := LargeReach(SquaredDistance(q, p));
      swath := if rest > large then rest else large;
      forall s: real | s >= swath
        ensures Covers(Still(p, s), q)
      {
        StillReaches(p, s, q);
      }
      assert points == (points - {q}) + {q};
    }
  }

  lemma {:induction false} Beyond(points: set<Point>) returns (bound: real)
    ensures forall p | p in points :: p.x < bound
    decreases |points|
  {
    if points == {} {
      bound := 0.0;
    } else {
      var p :| p in points;
      var rest := Beyond(points - {p});
      bound := if p.x < rest then rest else p.x + 1.0;
      assert points == (points - {p}) + {p};
    }
  }

  lemma StillIsFlown(p: Point, swath: real)
    requires swath > 0.0
    ensures Flown([Still(p, swath)])
  {
    assert Still(p, swath).lines[0] == [p, p];
  }

  // ---------- What findings reveal ----------

  /** A single track leaves the coverage ratio at zero exactly when it covers no centre. */
  lemma RatioReveals(boundary: Polygon, track: Track, resolution: real)
    requires Measurable(boundary, resolution)
    ensures var outcome := Outcome(boundary, [track], resolution);
      && outcome.Ok?
      && (FindingOf(outcome.value).coverageRatio == 0.0 <==> forall p | p in Centres(boundary, resolution) ::
          !Covers(track, p))
      && (FindingOf(outcome.value).coverageRatio == 1.0 <==> forall p | p in Centres(boundary, resolution) ::
          Covers(track, p))
  {
    hide Outcome, Encloses, BoundsOf, NetArea, Covers, Measurable, Lattice.Centre, GapArtifacts;
    OkIffMeasurable(boundary, [track], resolution);
    MeasurableHasCentres(boundary, resolution);
    var g := LatticeOf(boundary, resolution);
    var cells := Analysed(boundary, g);
    var covered := CoveredBy(cells, g, [track], 1);
    OnePass(track);
    assert covered <= cells;
    SubsetSize(covered, cells);
    ZeroRatio(|covered|, |cells|);
    if covered == {} {
      forall p | p in Centres(boundary, resolution)
        ensures !Covers(track, p)
      {
        var c :| c in cells && g.Centre(c) == p;
        assert c !in covered;
      }
    } else {
      var c :| c in covered;
      assert g.Centre(c) in Centres(boundary, resolution);
    }
    if covered == cells {
      forall p | p in Centres(boundary, resolution)
        ensures Covers(track, p)
      {
        var c :| c in cells && g.Centre(c) == p;
        assert c in covered;
      }
    } else {
      var c :| c in cells && c !in covered;
      assert g.Centre(c) in Centres(boundary, resolution);
    }
  }

  lemma OnePass(track: Track)
    ensures forall p :: Passes([track], p) >= 1 <==> Covers(track, p)
  {
  }

  lemma MeasurableHasCentres(boundary: Polygon, resolution: real)
    requires Measurable(boundary, resolution)
    ensures resolution > 0.0 && BoundsOf(Vertices(boundary)).Some?
    ensures Analysed(boundary, LatticeOf(boundary, resolution)) != {}
  {
  }

  lemma ZeroRatio(part: nat, whole: nat)
    requires whole > 0 && part <= whole
    ensures Ratio(part, whole) == 0.0 <==> part == 0
    ensures Ratio(part, whole) == 1.0 <==> part == whole
  {
    RatioGrows(part, whole, whole);
    RatioGrows(0, part, whole);
    assert Ratio(0, whole) == 0.0;
  }

  // ---------- The exact condition ----------

  /** Whatever is flown, the two boundaries have the same finding. */
  ghost predicate AlwaysAgree(a: Polygon, b: Polygon, resolution: real)
    requires Measurable(a, resolution) && Measurable(b, resolution)
  {
    forall tracks | Flown(tracks) :: Agree(a, b, tracks, resolution)
  }

  ghost predicate Agree(a: Polygon, b: Polygon, tracks: seq<Track>, resolution: real) {
    var left, right := Outcome(a, tracks, resolution), Outcome(b, tracks, resolution);
    left.Ok? && right.Ok? && FindingOf(left.value) == FindingOf(right.value)
  }

  /** A centre of one boundary only is told apart by a narrow track at that centre. */
  lemma CentreTellsApart(a: Polygon, b: Polygon, p: Point, resolution: real) returns (track: Track)
    requires Measurable(a, resolution) && Measurable(b, resolution)
    requires p in Centres(a, resolution) && p !in Centres(b, resolution)
    ensures Flown([track]) && !Agree(a, b, [track], resolution) && !Agree(b, a, [track], resolution)
  {
    hide Outcome, Covers, Centres, Measurable, FindingOf, Flown;
    var swath := Narrow(Centres(b, resolution), p);
    track := Still(p, swath);
    StillIsFlown(p, swath);
    StillCoversItself(p, swath);
    RatioReveals(a, track, resolution);
    RatioReveals(b, track, resolution);
  }

  lemma StillCoversItself(p: Point, swath: real)
    requires swath > 0.0
    ensures Covers(Still(p, swath), p)
  {
    hide Covers;
    StillReaches(p, swath, p);
    DistinctPointsAreApart(p, p);
    SquareIsNonNegative(swath / 2.0);
  }

  /** A track far from both boundaries misses all of both, so the findings show the whole areas. */
  lemma AreaTellsApart(a: Polygon, b: Polygon, resolution: real) returns (track: Track)
    requires Measurable(a, resolution) && Measurable(b, resolution) && NetArea(a) != NetArea(b)
    ensures Flown([track]) && !Agree(a, b, [track], resolution)
  {
    hide Outcome, Covers, Centres, Measurable, Flown, NetArea;
    var all := Centres(a, resolution) + Centres(b, resolution);
    var bound := Beyond(all);
    var p := Point(bound, 0.0);
    var swath := Narrow(all, p);
    track := Still(p, swath);
    StillIsFlown(p, swath);
    RatioReveals(a, track, resolution);
    RatioReveals(b, track, resolution);
    MissedArea(a, track, resolution);
    MissedArea(b, track, resolution);
  }

  lemma MissedArea(boundary: Polygon, track: Track, resolution: real)
    requires Outcome(boundary, [track], resolution).Ok?
    requires FindingOf(Outcome(boundary, [track], resolution).value).coverageRatio == 0.0
    ensures FindingOf(Outcome(boundary, [track], resolution).value).area == NetArea(boundary)
  {
    hide Outcome, NetArea;
    ResultIsConsistent(boundary, [track], resolution, Outcome(boundary, [track], resolution).value);
  }

  /**
   A track that covers all of both boundaries leaves no gap, and without one the finding shows the middle of the box.
   */
  lemma MiddleTellsApart(a: Polygon, b: Polygon, resolution: real) returns (track: Track)
    requires Measurable(a, resolution) && Measurable(b, resolution)
    requires Midpoint(LatticeOf(a, resolution).bounds) != Midpoint(LatticeOf(b, resolution).bounds)
    ensures Flown([track]) && !Agree(a, b, [track], resolution)
  {
    hide Outcome, Covers, Centres, Measurable, Flown, Midpoint;
    var origin := Point(0.0, 0.0);
    var swath := Wide(Centres(a, resolution) + Centres(b, resolution), origin);
    track := Still(origin, swath);
    StillIsFlown(origin, swath);
    RatioReveals(a, track, resolution);
    RatioReveals(b, track, resolution);
    CoveredMiddle(a, track, resolution);
    CoveredMiddle(b, track, resolution);
  }

  lemma CoveredMiddle(boundary: Polygon, track: Track, resolution: real)
    requires Measurable(boundary, resolution) && Outcome(boundary, [track], resolution).Ok?
    requires FindingOf(Outcome(boundary, [track], resolution).value).coverageRatio == 1.0
    ensures var m := Midpoint(LatticeOf(boundary, resolution).bounds);
      FindingOf(Outcome(boundary, [track], resolution).value).gap == [[m, m, m, m]]
  {
    hide Outcome, Measurable, Midpoint, Analysed, BoundsOf;
    OkIffMeasurable(boundary, [track], resolution);
  }

  /**
   Two boundaries for which coverage can be calculated have the same finding for all track lists if and only if they
   contain the same centres, have the same area and their boxes the same middle.
   */
  lemma AgreeIffSameMeasure(a: Polygon, b: Polygon, resolution: real)
    requires Measurable(a, resolution) && Measurable(b, resolution)
    ensures AlwaysAgree(a, b, resolution) <==> SameMeasure(a, b, resolution)
  {
    hide Outcome, Centres, Measurable, FindingOf, NetArea, Midpoint, Agree;
    if SameMeasure(a, b, resolution) {
      forall tracks | Flown(tracks)
        ensures Agree(a, b, tracks, resolution)
      {
        SameMeasureAgrees(a, b, tracks, resolution);
      }
    } else {
      var track := TellApart(a, b, resolution);
      assert !Agree(a, b, [track], resolution);
    }
  }

  lemma SameMeasureAgrees(a: Polygon, b: Polygon, tracks: seq<Track>, resolution: real)
    requires SameMeasure(a, b, resolution) && tracks != []
    ensures Agree(a, b, tracks, resolution)
  {
    hide Outcome, Centres, Measurable, NetArea, Midpoint;
    SameMeasureSameFinding(a, b, tracks, resolution);
  }

  /** Boundaries that measure differently are told apart by a single track. */
  lemma TellApart(a: Polygon, b: Polygon, resolution: real) returns (track: Track)
    requires Measurable(a, resolution) && Measurable(b, resolution) && !SameMeasure(a, b, resolution)
    ensures Flown([track]) && !Agree(a, b, [track], resolution)
  {
    hide Outcome, Centres, Measurable, NetArea, Midpoint, Agree, Flown;
    if p :| p in Centres(a, resolution) && p !in Centres(b, resolution) {
      track := CentreTellsApart(a, b, p, resolution);
    } else if p :| p in Centres(b, resolution) && p !in Centres(a, resolution) {
      track := CentreTellsApart(b, a, p, resolution);
    } else if NetArea(a) != NetArea(b) {
      track := AreaTellsApart(a, b, resolution);
    } else {
      track := MiddleTellsApart(a, b, resolution);
    }
  }
}
