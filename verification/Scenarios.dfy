/**
 Two runs of the whole system in which a promise fails. In one an area is surveyed, its gap detected and its boundary
 redrawn; the next detection is answered from the cache with a finding that a recalculation would contradict. In the
 other an audit event shows a row that was not the one replaced.
 */
module Scenarios {
  import opened Wrappers
  import opened Plane
  import opened Polygons
  import opened Rectangles
  import opened OneCell
  import opened Distance
  import opened Coverage
  import opened Resurvey
  import opened States
  import opened Checksums
  import opened Tables
  import opened Records
  import opened Workflow
  import opened Reachability
  import opened Overtaking
  import opened Requests
  import opened AuditTrail
  import opened StaleSnapshots
  import LoneUpdates
  import LoneInserts

  // ---------- Two places for an area ----------

  /** A unit square with its left edge at `x`. */
  function UnitBox(x: real): Bounds {
    Bounds(x, 0.0, x + 1.0, 1.0)
  }

  function AreaAt(x: real): AreaValues {
    AreaValues("bay", RectangleOf(UnitBox(x)), 1.0, "EPSG:32650", AreaDraft)
  }

  const SURVEYED: seq<Line> := [[Point(0.0, 0.5), Point(1.0, 0.5)]]

  /** The survey goes along the middle of the square at 0, and is far from the square at 10. */
  lemma SurveyReachesOnlyTheFirst(id: nat)
    ensures Covers(Track(id, SURVEYED, 1.0), Point(0.5, 0.5))
    ensures !Covers(Track(id, SURVEYED, 1.0), Point(10.5, 0.5))
  {
    var track := Track(id, SURVEYED, 1.0);
    var a, b := Point(0.0, 0.5), Point(1.0, 0.5);
    OneLineTrack(track, a, b, Point(0.5, 0.5));
    OneLineTrack(track, a, b, Point(10.5, 0.5));
    LevelLineReaches(Point(0.5, 0.5), 0.0, 1.0, 0.5, 0.5);
    forall s: real | 0.0 <= s <= 1.0
      ensures !AtMost(SquaredDistance(Point(10.5, 0.5), Along(a, b, s)), 0.5)
    {
      assert Along(a, b, s) == Point(s, 0.5);
      FarOff(s);
    }
  }

  lemma FarOff(s: real)
    requires s <= 1.0
    ensures !AtMost(SquaredDistance(Point(10.5, 0.5), Point(s, 0.5)), 0.5)
  {
    var d := 10.5 - s;
    assert d >= 9.5;
    assert d * d >= 9.5 * d;
  }

  lemma FindingsDiffer(id: nat)
    ensures ValidBoundary(AreaAt(0.0).boundary) && ValidBoundary(AreaAt(10.0).boundary)
    ensures var outcome := Outcome(AreaAt(0.0).boundary, [Track(id, SURVEYED, 1.0)], 1.0);
      outcome.Ok? && FindingOf(outcome.value).gapRatio == 0.0 && FindingOf(outcome.value).severity == Minor
    ensures var outcome := Outcome(AreaAt(10.0).boundary, [Track(id, SURVEYED, 1.0)], 1.0);
      outcome.Ok? && FindingOf(outcome.value).gapRatio == 1.0 && FindingOf(outcome.value).severity == Critical
  {
    hide Outcome, Covers, FindingOf, ValidBoundary;
    SurveyReachesOnlyTheFirst(id);
    FindingAt(0.0, id);
    FindingAt(10.0, id);
  }

  lemma FindingAt(x: real, id: nat)
    ensures ValidBoundary(AreaAt(x).boundary)
    ensures var outcome := Outcome(AreaAt(x).boundary, [Track(id, SURVEYED, 1.0)], 1.0);
      && outcome.Ok?
      && FindingOf(outcome.value).gapRatio
          == (if Covers(Track(id, SURVEYED, 1.0), Point(x + 0.5, 0.5)) then 0.0 else 1.0)
      && FindingOf(outcome.value).severity == SeverityForRatio(FindingOf(outcome.value).gapRatio)
  {
    hide Outcome, Covers, BoundsOf, NetArea;
    RectangleFacts(UnitBox(x));
    AllOrNothing(UnitBox(x), 1.0, Track(id, SURVEYED, 1.0));
  }

  // ---------- One request after the other ----------

  /** Nobody is waiting, and the tables hold these rows. */
  ghost predicate At(s: System, areas: map<nat, Row<Area>>, plans: map<nat, Row<Plan>>, runs: map<nat, Row<Run>>,
                     gaps: map<nat, Row<Gap>>) {
    s.tasks == map[] && s.areas.rows == areas && s.plans.rows == plans && s.runs.rows == runs && s.gaps.rows == gaps
  }

  lemma Continues(events: seq<Event>, request: Task, choice: Choice, n: nat, done: Answered)
    requires From(After(events), Alone(1, request, choice, n)) == done.Told(1)
    ensures After(events + Alone(1, request, choice, n)) == done.Told(1)
  {
    hide From;
    AfterFrom(events, Alone(1, request, choice, n));
  }

  const NEW := Choice(1, [1])

  const NEXT := Choice(2, [1])

  const BAY := Area("BAY-1", AreaAt(0.0))

  lemma NothingYet()
    ensures At(After([]), map[], map[], map[], map[])
  {
  }

  lemma BayIsValid()
    ensures ValidBoundary(BAY.values.boundary) && BAY.values.status == AreaDraft
  {
    hide ValidBoundary;
    FindingsDiffer(1);
  }

  lemma AreaIsCreated() returns (events: seq<Event>)
    ensures At(After(events), map[1 := Row(1, BAY)], map[], map[], map[])
  {
    hide From, Alone, Apply, After, ValidBoundary, AreaAt;
    NothingYet();
    BayIsValid();
    LoneInserts.AreaCreateAlone(After([]), 1, BAY, NEW);
    Continues([], AreaCreate(BAY), NEW, 2, AfterAreaCreate(After([]), BAY, 1));
    events := [] + Alone(1, AreaCreate(BAY), NEW, 2);
  }

  const DRAFT := Plan(1, SOME_CONTENT, PlanDraft)

  lemma PlanIsCreated() returns (events: seq<Event>)
    ensures At(After(events), map[1 := Row(1, BAY)], map[1 := Row(1, DRAFT)], map[], map[])
  {
    hide From, Alone, Apply, After;
    var before := AreaIsCreated();
    var request := PlanCreate(1, SOME_CONTENT);
    LoneInserts.PlanCreateAlone(After(before), 1, 1, SOME_CONTENT, NEW);
    Continues(before, request, NEW, 3, AfterPlanCreate(After(before), 1, SOME_CONTENT, 1));
    events := before + Alone(1, request, NEW, 3);
  }

  const LOCKED := Plan(1, SOME_CONTENT, PlanLocked)

  lemma PlanIsLocked() returns (events: seq<Event>)
    ensures At(After(events), map[1 := Row(1, BAY)], map[1 := Row(2, LOCKED)], map[], map[])
  {
    hide From, Alone, Apply, After;
    var before := PlanIsCreated();
    var request := PlanLock(1, 1, PlanLocked);
    LoneUpdates.PlanLockAlone(After(before), 1, 1, 1, PlanLocked, NEW);
    Continues(before, request, NEW, 4, AfterPlanLock(After(before), 1, 1, PlanLocked));
    events := before + Alone(1, request, NEW, 4);
  }

  const IMPORT := ImportRequest(Source("track", 1, 1.0, 0, 1), "RUN-1", SURVEYED, Good)

  function RunAs(state: RunState): Run {
    ImportedRun(IMPORT).(state := state)
  }

  lemma RunIsImported() returns (events: seq<Event>)
    ensures At(After(events), map[1 := Row(1, BAY)], map[1 := Row(2, LOCKED)], map[1 := Row(1, RunAs(Imported))], map[])
  {
    hide From, Alone, Apply, After, Payload;
    var before := PlanIsLocked();
    LoneInserts.ImportAlone(After(before), 1, IMPORT, NEW);
    Continues(before, RunImport(IMPORT), NEW, 4, AfterImport(After(before), IMPORT, 1));
    events := before + Alone(1, RunImport(IMPORT), NEW, 4);
  }

  lemma RunMoves(before: seq<Event>, version: nat, from: RunState, to: RunState) returns (events: seq<Event>)
    requires At(After(before), map[1 := Row(1, BAY)], map[1 := Row(2, LOCKED)], map[1 := Row(version, RunAs(from))],
                map[])
    requires from.CanTransition(to) && to != Rejected
    ensures At(After(events), map[1 := Row(1, BAY)], map[1 := Row(2, LOCKED)], map[1 := Row(version + 1, RunAs(to))],
               map[])
  {
    hide From, Alone, Apply, After, Payload;
    LoneUpdates.RunMoveAlone(After(before), 1, 1, version, to, "", NEW);
    Continues(before, RunMove(1, version, to, ""), NEW, 4, AfterRunMove(After(before), 1, version, to, ""));
    events := before + Alone(1, RunMove(1, version, to, ""), NEW, 4);
  }

  const DETECT := DetectRequest("key-0001", 1, [1], "grid-1", 0.0)

  /** What a detection does on a system with one area, one locked plan and one processed run. */
  lemma ProcessedRunIsDetected(s: System, area: Area, choice: Choice)
    requires TablesComplete(s) && choice.order == [1]
    requires s.areas.rows.Keys == {1} && s.areas.rows[1].data == area
    requires s.plans.rows == map[1 := Row(2, LOCKED)] && s.runs.rows == map[1 := Row(4, RunAs(Processed))]
    ensures IsAnswer(choice.order, DETECT.runIds, s.runs.rows)
    ensures AfterDetect(s, DETECT, choice)
      == AfterCheckedDetection(s, DETECT, area, [1], [RunAs(Processed)], choice.newId)
  {
    hide AfterCheckedDetection, RowsOf, DataOf, PlanIdsOf, CheckSources, UniqueIds, RunAs;
    OneRow(s.runs.rows, 1);
    OneRow(s.plans.rows, 1);
    OneData(s.runs.rows[1]);
    OneData(s.plans.rows[1]);
    OneRunPasses();
  }

  lemma OneRow<R>(rows: map<nat, Row<R>>, id: nat)
    requires id in rows
    ensures RowsOf(rows, [id]) == [rows[id]]
  {
  }

  lemma OneData<R>(row: Row<R>)
    ensures DataOf([row]) == [row.data]
  {
  }

  lemma OneRunPasses()
    ensures CheckSources(1, [RunAs(Processed)], [LOCKED]).None?
    ensures PlanIdsOf([Row(4, RunAs(Processed))]) == [1] && |UniqueIds([1])| == 1
  {
    hide Payload;
    SourcesPass(1, [RunAs(Processed)], [LOCKED]);
  }

  // ---------- Detection, redrawing, and detection again ----------

  /** The gap that the first detection stores: nothing is missed. */
  ghost function FirstGap(): Gap
    requires Outcome(BAY.values.boundary, [Track(1, SURVEYED, 1.0)], 1.0).Ok?
  {
    DetectedGap(DETECT, BAY, HashOf(DETECT, BAY, [RunAs(Processed)]),
                Outcome(BAY.values.boundary, [Track(1, SURVEYED, 1.0)], 1.0).value)
  }

  lemma RunIsProcessed() returns (events: seq<Event>)
    ensures At(After(events), map[1 := Row(1, BAY)], map[1 := Row(2, LOCKED)], map[1 := Row(4, RunAs(Processed))],
               map[])
  {
    hide At, After, Payload;
    events := RunIsImported();
    events := RunMoves(events, 1, Imported, QualityChecked);
    events := RunMoves(events, 2, QualityChecked, Processing);
    events := RunMoves(events, 3, Processing, Processed);
  }

  lemma GapIsDetected() returns (events: seq<Event>)
    ensures Outcome(BAY.values.boundary, [Track(1, SURVEYED, 1.0)], 1.0).Ok?
    ensures At(After(events), map[1 := Row(1, BAY)], map[1 := Row(2, LOCKED)], map[1 := Row(4, RunAs(Processed))],
               map[1 := Row(1, FirstGap())])
  {
    hide From, Alone, Apply, After, Payload, Outcome, HashOf, DetectedGap, AreaAt, AfterDetect;
    var before := RunIsProcessed();
    BayIsSurveyed();
    ProcessedRunIsDetected(After(before), BAY, NEW);
    LoneInserts.DetectAlone(After(before), 1, DETECT, NEW);
    Continues(before, GapDetect(DETECT), NEW, 6, AfterDetect(After(before), DETECT, NEW));
    events := before + Alone(1, GapDetect(DETECT), NEW, 6);
  }

  lemma BayIsSurveyed()
    ensures TracksOf([1], [RunAs(Processed)]) == [Track(1, SURVEYED, 1.0)]
    ensures ChosenResolution(DETECT, BAY) == 1.0
    ensures Outcome(BAY.values.boundary, [Track(1, SURVEYED, 1.0)], 1.0).Ok?
  {
    hide Outcome, Payload;
    FindingsDiffer(1);
  }

  const REDRAWN := Area("BAY-1", AreaAt(10.0))

  lemma BayIsRedrawn() returns (events: seq<Event>)
    ensures Outcome(BAY.values.boundary, [Track(1, SURVEYED, 1.0)], 1.0).Ok?
    ensures At(After(events), map[1 := Row(2, REDRAWN)], map[1 := Row(2, LOCKED)], map[1 := Row(4, RunAs(Processed))],
               map[1 := Row(1, FirstGap())])
  {
    hide From, Alone, Apply, After, Payload, Outcome, HashOf, DetectedGap, ValidBoundary, RectangleOf;
    var before := GapIsDetected();
    FindingsDiffer(1);
    LoneUpdates.AreaUpdateAlone(After(before), 1, 1, 1, REDRAWN.values, NEW);
    Continues(before, AreaUpdate(1, 1, REDRAWN.values), NEW, 4, AfterAreaUpdate(After(before), 1, 1, REDRAWN.values));
    events := before + Alone(1, AreaUpdate(1, 1, REDRAWN.values), NEW, 4);
  }

  /** The hash of the second detection is that of the first. */
  lemma HashIgnoresTheBoundary()
    ensures HashOf(DETECT, REDRAWN, [RunAs(Processed)]) == HashOf(DETECT, BAY, [RunAs(Processed)])
  {
    hide Payload;
  }

  lemma StoredGapIsFound(gaps: map<nat, Row<Gap>>)
    requires Outcome(BAY.values.boundary, [Track(1, SURVEYED, 1.0)], 1.0).Ok? && gaps == map[1 := Row(1, FirstGap())]
    ensures var hash := HashOf(DETECT, REDRAWN, [RunAs(Processed)]);
      HashTaken(gaps, hash) && GapWith(gaps, hash) == Row(1, FirstGap())
  {
    hide Outcome, HashOf, Payload;
    HashIgnoresTheBoundary();
    assert gaps[1].data.hash == HashOf(DETECT, REDRAWN, [RunAs(Processed)]);
  }

  /**
   A run in which the cache is wrong: area, plan, lock, import, three run transitions, detection, redrawn boundary,
   detection again. The last request is answered with the first gap, which says that nothing is missed; for the
   boundary, runs and resolution that it has read a calculation says that everything is.
   */
  lemma CacheHitCanBeStale() returns (events: seq<Event>, gap: Row<Gap>)
    ensures var s := After(events);
      && 1 in s.answers && s.answers[1] == GapReply(gap, true)
      && gap.data.finding.gapRatio == 0.0 && gap.data.finding.severity == Minor
      && s.areas.rows == map[1 := Row(2, REDRAWN)] && s.runs.rows == map[1 := Row(4, RunAs(Processed))]
      && var again := Outcome(REDRAWN.values.boundary, TracksOf([1], [RunAs(Processed)]),
                              ChosenResolution(DETECT, REDRAWN));
         again.Ok? && FindingOf(again.value).gapRatio == 1.0 && FindingOf(again.value).severity == Critical
  {
    hide From, Alone, Apply, After, Payload, Outcome, HashOf, AreaAt, AfterDetect, FindingOf, DetectionText, HashTaken,
        GapWith;
    var before := BayIsRedrawn();
    ProcessedRunIsDetected(After(before), REDRAWN, NEXT);
    StoredGapIsFound(After(before).gaps.rows);
    LoneInserts.DetectAlone(After(before), 1, DETECT, NEXT);
    Continues(before, GapDetect(DETECT), NEXT, 6, AfterDetect(After(before), DETECT, NEXT));
    events := before + Alone(1, GapDetect(DETECT), NEXT, 6);
    gap := Row(1, FirstGap());
    RedrawnIsMissed();
  }

  lemma RedrawnIsMissed()
    ensures Outcome(BAY.values.boundary, [Track(1, SURVEYED, 1.0)], 1.0).Ok?
    ensures FirstGap().finding.gapRatio == 0.0 && FirstGap().finding.severity == Minor
    ensures var again := Outcome(REDRAWN.values.boundary, TracksOf([1], [RunAs(Processed)]),
                                 ChosenResolution(DETECT, REDRAWN));
      again.Ok? && FindingOf(again.value).gapRatio == 1.0 && FindingOf(again.value).severity == Critical
  {
    hide Outcome, Payload, HashOf, FindingOf, DetectionText;
    FindingsDiffer(1);
    BayIsSurveyed();
    assert ChosenResolution(DETECT, REDRAWN) == 1.0;
  }

  // ---------- A stale snapshot ----------

  /**
   A run in which the audit log shows a row that was not replaced: an update that expects version 2 reads the plan at
   version 1, another update takes it to version 2, and then the first one writes.
   */
  lemma SnapshotCanBeStale() returns (events: seq<Event>, n: nat)
    ensures n < |After(events).audits| && After(events).audits[n].PlanChanged?
    ensures !SnapshotIsExact(After(events), After(events).audits[n])
  {
    hide Apply, After, SnapshotIsExact;
    var before := PlanIsCreated();
    var request := PlanUpdate(1, 2, SOME_CONTENT);
    var asked := before + [Arrive(1, request)];
    UpdateArrives(before, request);
    PlanSnapshotIsStaleIff(asked, 1, 1, 2, SOME_CONTENT);
    var choice, more :| LogsStalePlan(After(asked + [Advance(1, choice)] + more), 1, After(asked).plans.rows[1], 2);
    events := asked + [Advance(1, choice)] + more;
    n :| n < |After(events).audits| && After(events).audits[n].PlanChanged?
        && !SnapshotIsExact(After(events), After(events).audits[n]);
  }

  lemma UpdateArrives(before: seq<Event>, request: Task)
    requires After(before).tasks == map[] && request.IsRequest()
    ensures After(before + [Arrive(1, request)]) == After(before).Goto(1, request)
  {
    assert (before + [Arrive(1, request)])[..|before|] == before;
  }
}
