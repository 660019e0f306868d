/** The order of tracks does not matter, and more survey never hurts. */
module MoreSurvey {
  import opened Collections
  import opened Algebra
  import opened Wrappers
  import opened Plane
  import opened Distance
  import opened Grid
  import opened Coverage
  import opened CoverageFacts
  import opened States

  // ---------- Order ----------

  lemma {:induction false} PassesWithout(tracks: seq<Track>, i: nat, p: Point)
    requires i < |tracks|
    ensures Passes(tracks, p) == Passes(tracks[..i] + tracks[i + 1..], p) + if Covers(tracks[i], p) then 1 else 0
  {
    var last := |tracks| - 1;
    if i < last {
      PassesWithout(tracks[..last], i, p);
      assert tracks[..last][..i] + tracks[..last][i + 1..] == (tracks[..i] + tracks[i + 1..])[..last - 1];
    } else {
      assert tracks[..i] + tracks[i + 1..] == tracks[..last];
    }
  }

  lemma {:induction false} PassesIgnoreOrder(a: seq<Track>, b: seq<Track>, p: Point)
    requires multiset(a) == multiset(b)
    ensures Passes(a, p) == Passes(b, p)
    decreases |a|
  {
    if a == [] {
      assert multiset(b) == multiset{};
    } else {
      var t, rest := a[|a| - 1], a[..|a| - 1];
      assert a == rest + [t];
      assert t in multiset(b);
      var i :| 0 <= i < |b| && b[i] == t;
      WithoutOne(b, i);
      PassesWithout(b, i, p);
      assert multiset(a) == multiset(rest) + multiset{t};
      CancelOne(multiset(rest), multiset(b[..i] + b[i + 1..]), t);
      PassesIgnoreOrder(rest, b[..i] + b[i + 1..], p);
    }
  }

  /** Whether coverage can be calculated does not depend on the tracks, as long as there are some. */
  lemma ErrorsIgnoreTracks(boundary: Polygon, a: seq<Track>, b: seq<Track>, resolution: real)
    requires (a == [] <==> b == []) && Outcome(boundary, a, resolution).Err?
    ensures Outcome(boundary, b, resolution) == Outcome(boundary, a, resolution)
  {
    hide BoundsOf, Analysed, Summary;
  }

  lemma SameCoverSameSummary(boundary: Polygon, g: Lattice, cells: set<Cell>, a: seq<Track>, b: seq<Track>)
    requires cells != {}
    requires CoveredBy(cells, g, a, 1) == CoveredBy(cells, g, b, 1)
      && CoveredBy(cells, g, a, 2) == CoveredBy(cells, g, b, 2)
    ensures Summary(boundary, g, a, cells) == Summary(boundary, g, b, cells)
  {
    hide CoveredBy, GapArtifacts, Hull;
  }

  /** Any permutation of the tracks gives the very same outcome. */
  lemma OutcomeIgnoresOrder(boundary: Polygon, a: seq<Track>, b: seq<Track>, resolution: real)
    requires multiset(a) == multiset(b)
    ensures Outcome(boundary, a, resolution) == Outcome(boundary, b, resolution)
  {
    hide Outcome, BoundsOf, Analysed, Summary, CoveredBy;
    assert |multiset(a)| == |a| && |multiset(b)| == |b|;
    if Outcome(boundary, a, resolution).Ok? {
      var g, cells := Explain(boundary, a, resolution);
      SameCover(cells, g, a, b, 1);
      SameCover(cells, g, a, b, 2);
      SameCoverSameSummary(boundary, g, cells, a, b);
    } else {
      ErrorsIgnoreTracks(boundary, a, b, resolution);
    }
  }

  lemma SameCover(cells: set<Cell>, g: Lattice, a: seq<Track>, b: seq<Track>, n: nat)
    requires multiset(a) == multiset(b)
    ensures CoveredBy(cells, g, a, n) == CoveredBy(cells, g, b, n)
  {
    forall c | c in cells
      ensures Passes(a, g.Centre(c)) == Passes(b, g.Centre(c))
    {
      PassesIgnoreOrder(a, b, g.Centre(c));
    }
  }

  // ---------- More tracks, wider swaths ----------

  /** Every track is still flown along the same lines with at least the same swath; further tracks may follow. */
  ghost predicate AtLeastAsMuch(more: seq<Track>, tracks: seq<Track>) {
    && |tracks| <= |more|
    && forall i | 0 <= i < |tracks| :: more[i].lines == tracks[i].lines && tracks[i].swath <= more[i].swath
  }

  lemma WiderReachesFarther(p: Point, a: Point, b: Point, reach: real, wider: real)
    requires reach <= wider && SegmentInReach(p, a, b, reach)
    ensures SegmentInReach(p, a, b, wider)
  {
    var s: real :| 0.0 <= s <= 1.0 && AtMost(SquaredDistance(p, Along(a, b, s)), reach);
    SquaresGrow(reach, wider);
    assert AtMost(SquaredDistance(p, Along(a, b, s)), wider);
  }

  lemma WiderCoversMore(track: Track, wider: Track, p: Point)
    requires wider.lines == track.lines && track.swath <= wider.swath
    ensures Covers(track, p) ==> Covers(wider, p)
  {
    if Covers(track, p) {
      var l, k :| 0 <= l < |track.lines| && 1 <= k < |track.lines[l]|
        && SegmentInReach(p, track.lines[l][k - 1], track.lines[l][k], track.swath / 2.0);
      WiderReachesFarther(p, track.lines[l][k - 1], track.lines[l][k], track.swath / 2.0, wider.swath / 2.0);
      assert wider.lines[l][k] == track.lines[l][k];
    }
  }

  lemma {:induction false} PassesGrow(more: seq<Track>, tracks: seq<Track>, p: Point)
    requires AtLeastAsMuch(more, tracks)
    ensures Passes(tracks, p) <= Passes(more, p)
    decreases |more|
  {
    if |tracks| < |more| {
      PassesGrow(more[..|more| - 1], tracks, p);
    } else if tracks != [] {
      var last := |tracks| - 1;
      PassesGrow(more[..last], tracks[..last], p);
      WiderCoversMore(tracks[last], more[last], p);
    }
  }

  lemma CoverGrows(cells: set<Cell>, g: Lattice, more: seq<Track>, tracks: seq<Track>, n: nat)
    requires AtLeastAsMuch(more, tracks)
    ensures CoveredBy(cells, g, tracks, n) <= CoveredBy(cells, g, more, n)
    ensures |CoveredBy(cells, g, tracks, n)| <= |CoveredBy(cells, g, more, n)|
  {
    forall c | c in cells
      ensures Passes(tracks, g.Centre(c)) <= Passes(more, g.Centre(c))
    {
      PassesGrow(more, tracks, g.Centre(c));
    }
    SubsetSize(CoveredBy(cells, g, tracks, n), CoveredBy(cells, g, more, n));
  }

  /**
   Adding tracks or widening swaths never lowers coverage or overlap, never raises severity,
   and any gap that remains lies inside the gap box reported before.
   */
  lemma MoreSurveyNeverHurts(boundary: Polygon, tracks: seq<Track>, more: seq<Track>, resolution: real,
                             r: CoverageResult)
    requires Outcome(boundary, tracks, resolution) == Ok(r) && AtLeastAsMuch(more, tracks)
    ensures Outcome(boundary, more, resolution).Ok?
    ensures var s := Outcome(boundary, more, resolution).value;
      && s.sampleCells == r.sampleCells && s.area == r.area
      && r.coverageRatio <= s.coverageRatio && r.overlapRatio <= s.overlapRatio && s.gapRatio <= r.gapRatio
      && SeverityRank(SeverityForRatio(s.gapRatio)) <= SeverityRank(SeverityForRatio(r.gapRatio))
      && (s.gapRatio > 0.0 ==> exists before: Bounds, after: Bounds ::
            r.gap == [BoxRing(before)] && s.gap == [BoxRing(after)] && after.Within(before))
  {
    var g, cells := Explain(boundary, tracks, resolution);
    CoverGrows(cells, g, more, tracks, 1);
    CoverGrows(cells, g, more, tracks, 2);
    RatioGrows(|CoveredBy(cells, g, tracks, 1)|, |CoveredBy(cells, g, more, 1)|, |cells|);
    RatioGrows(|CoveredBy(cells, g, tracks, 2)|, |CoveredBy(cells, g, more, 2)|, |cells|);
    var s := Outcome(boundary, more, resolution).value;
    SeverityIsMonotone(s.gapRatio, r.gapRatio);
    if s.gapRatio > 0.0 {
      NoGapMeansAllCovered(boundary, g, more, cells);
      GapIsReported(boundary, g, more, cells);
      GapIsReported(boundary, g, tracks, cells);
      var before, after := Hull(Uncovered(cells, g, tracks), g).value, Hull(Uncovered(cells, g, more), g).value;
      HullWithin(after, before, Uncovered(cells, g, more), Uncovered(cells, g, tracks), g);
      assert r.gap == [BoxRing(before)] && s.gap == [BoxRing(after)] && after.Within(before);
    }
  }
}
