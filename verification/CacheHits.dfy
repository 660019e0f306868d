/** When the detection cache answers what a recalculation would. */
module CacheHits {
  import opened Collections
  import opened Wrappers
  import opened Coverage
  import opened Checksums
  import opened Tables
  import opened Records
  import opened Evolution
  import opened Workflow
  import opened Invariant
  import opened Reachability
  import opened Reading
  import opened Growth
  import opened Measures
  import GapSteps

  /** A detection past its checks, and a stored gap with its hash. */
  ghost predicate IsHit(s: System, tid: nat, id: nat) {
    && tid in s.tasks && s.tasks[tid].GapDetectHashed? && id in s.gaps.rows
    && s.gaps.rows[id].data.hash == HashOf(s.tasks[tid].detect, s.tasks[tid].area0.data, DataOf(s.tasks[tid].runs))
  }

  /** What the calculation would give for the boundary, runs and resolution that the detection has read. */
  ghost predicate Recalculates(t: Task, finding: Finding)
    requires t.GapDetectHashed? && |t.ids| == |t.runs|
  {
    var again := Outcome(t.area0.data.values.boundary, TracksOf(t.ids, DataOf(t.runs)),
                         ChosenResolution(t.detect, t.area0.data));
    again.Ok? && FindingOf(again.value) == finding
  }

  /**
   A cache hit holds the finding of a fresh calculation, for any order or repetition of the requested ids and for a zero
   or explicit resolution, when the boundary that the gap was detected with and the present one measure the same.
   */
  lemma HitsAgreeWithRecomputation(events: seq<Event>, tid: nat, id: nat)
    requires var s := After(events);
      && IsHit(s, tid, id)
      && SameMeasure(s.gaps.rows[id].data.boundary, s.tasks[tid].area0.data.values.boundary,
                     s.gaps.rows[id].data.hash.resolution)
    ensures var s := After(events);
      |s.tasks[tid].ids| == |s.tasks[tid].runs| && Recalculates(s.tasks[tid], s.gaps.rows[id].data.finding)
  {
    hide Inv, Apply, TaskOk, Outcome, FindingOf, ChosenResolution, HashOf, SoundGap, CheckedRuns, SameMeasure;
    var s := After(events);
    AlwaysSound(events);
    GapSteps.AllGapsSound(s);
    HashedIsChecked(s, tid);
    AsManyIdsAsRuns(s, s.tasks[tid]);
    HitAgrees(s, s.tasks[tid], s.gaps.rows[id].data);
    var t, gap := s.tasks[tid], s.gaps.rows[id].data;
    HashHasChosenResolution(t.detect, t.area0.data, DataOf(t.runs));
    var tracks := TracksOf(t.ids, DataOf(t.runs));
    OkIffMeasurable(gap.boundary, tracks, gap.hash.resolution);
    SameMeasureSameFinding(gap.boundary, t.area0.data.values.boundary, tracks, gap.hash.resolution);
  }

  lemma AsManyIdsAsRuns(s: System, t: Task)
    requires t.GapDetectHashed? && CheckedRuns(s, t.detect, t.area0, t.ids, t.runs, t.plans)
    ensures |t.ids| == |t.runs|
  {
    hide Seen;
  }

  lemma HashHasChosenResolution(detect: DetectRequest, area: Area, runs: seq<Run>)
    ensures HashOf(detect, area, runs).resolution == ChosenResolution(detect, area)
  {
    hide ChosenResolution, Sorted;
  }

  // ---------- Where a gap's boundary comes from ----------

  /** The area once had the boundary that the gap was detected with. */
  ghost predicate BoundarySeen(areas: Table<Area>, gap: Gap) {
    exists row :: Seen(areas, gap.areaId, row) && row.data.values.boundary == gap.boundary
  }

  ghost predicate BoundariesSeen(s: System) {
    forall id | id in s.gaps.born :: BoundarySeen(s.areas, s.gaps.born[id].data)
  }

  lemma BoundaryStaysSeen(areas: Table<Area>, later: Table<Area>, gap: Gap)
    requires BoundarySeen(areas, gap) && Extends(later, areas)
    ensures BoundarySeen(later, gap)
  {
    var row :| Seen(areas, gap.areaId, row) && row.data.values.boundary == gap.boundary;
    StaysSeen(areas, later, gap.areaId, row);
  }

  lemma BoundariesStaySeen(s: System, later: System)
    requires BoundariesSeen(s) && Extends(later.areas, s.areas) && later.gaps.born == s.gaps.born
    ensures BoundariesSeen(later)
  {
    hide Extends, BoundarySeen;
    forall id | id in later.gaps.born
      ensures BoundarySeen(later.areas, later.gaps.born[id].data)
    {
      BoundaryStaysSeen(s.areas, later.areas, s.gaps.born[id].data);
    }
  }

  /** Every step but the insertion of a gap leaves the first versions of the gaps alone. */
  lemma GapsKeepBirth(s: System, tid: nat, choice: Choice)
    requires TablesComplete(s) && tid in s.tasks && !s.tasks[tid].GapDetectMissed?
    ensures Extends(Step(s, tid, choice).areas, s.areas) && Step(s, tid, choice).gaps.born == s.gaps.born
  {
    hide StepArea, StepPlan, StepRun, StepGap, TablesComplete, Extends;
    var task := s.tasks[tid];
    ExtendsSelf(s.areas);
    if ReadsOnly(task) {
      AreaReads(s, tid, task, choice);
      PlanReads(s, tid, task, choice);
      RunReads(s, tid, task, choice);
      GapReads(s, tid, task, choice);
    } else {
      AreaStepsLeaveOthers(s, tid, task, choice);
      PlanStepsLeaveOthers(s, tid, task, choice);
      RunStepsLeaveOthers(s, tid, task, choice);
      if task.GapMoveChecked? {
        ReviewKeepsBirth(s, tid, choice);
      }
    }
  }

  lemma ReviewKeepsBirth(s: System, tid: nat, choice: Choice)
    requires TablesComplete(s) && tid in s.tasks && s.tasks[tid].GapMoveChecked?
    ensures StepGap(s, tid, s.tasks[tid], choice).areas == s.areas
      && StepGap(s, tid, s.tasks[tid], choice).gaps.born == s.gaps.born
  {
    hide MovedGap, Annotated;
  }

  lemma DetectionSeesBoundary(s: System, tid: nat, choice: Choice)
    requires Inv(s) && TablesComplete(s) && tid in s.tasks && s.tasks[tid].GapDetectMissed? && BoundariesSeen(s)
    ensures BoundariesSeen(StepGap(s, tid, s.tasks[tid], choice))
  {
    hide Inv, Outcome, HashTaken, HashOf, TracksOf, DataOf, ChosenResolution, UniqueIds, FindingOf, DetectionText,
        BoundarySeen;
    var t := s.tasks[tid];
    assert forall gap: Gap | gap.areaId == t.detect.areaId && gap.boundary == t.area0.data.values.boundary ::
      BoundarySeen(s.areas, gap)
    by {
      MissedHasSeenArea(s, tid);
      SeenIsEnough(s.areas, t.detect.areaId, t.area0);
    }
  }

  lemma MissedHasSeenArea(s: System, tid: nat)
    requires Inv(s) && tid in s.tasks && s.tasks[tid].GapDetectMissed?
    ensures Seen(s.areas, s.tasks[tid].detect.areaId, s.tasks[tid].area0)
  {
    hide Inv, Seen, SeenAll, NoDuplicates;
    InvTask(s, tid);
  }

  lemma SeenIsEnough(areas: Table<Area>, areaId: nat, row: Row<Area>)
    requires Seen(areas, areaId, row)
    ensures forall gap: Gap | gap.areaId == areaId && gap.boundary == row.data.values.boundary ::
      BoundarySeen(areas, gap)
  {
    hide Seen;
  }

  lemma {:induction false} BoundariesAlwaysSeen(events: seq<Event>)
    ensures BoundariesSeen(After(events))
  {
    hide Inv, StepArea, StepPlan, StepRun, StepGap, BoundariesSeen, Extends;
    if events == [] {
      NoBoundaries();
    } else {
      var s, e := After(events[..|events| - 1]), events[|events| - 1];
      BoundariesAlwaysSeen(events[..|events| - 1]);
      AlwaysSound(events[..|events| - 1]);
      ExtendsSelf(s.areas);
      if e.Advance? && e.tid in s.tasks {
        if s.tasks[e.tid].GapDetectMissed? {
          DetectionSeesBoundary(s, e.tid, e.choice);
        } else {
          GapsKeepBirth(s, e.tid, e.choice);
          BoundariesStaySeen(s, After(events));
        }
      } else {
        BoundariesStaySeen(s, After(events));
      }
    }
  }

  lemma NoBoundaries()
    ensures BoundariesSeen(Start())
  {
  }

  /** The boundary that a gap was detected with is one that its area has had. */
  lemma BoundaryWasTheAreas(events: seq<Event>, id: nat)
    requires id in After(events).gaps.rows
    ensures BoundarySeen(After(events).areas, After(events).gaps.rows[id].data)
  {
    hide Inv, Apply, LegalGaps;
    BoundariesAlwaysSeen(events);
    AlwaysSound(events);
    InvParts(After(events));
    KeepsBoundary(After(events).gaps, id);
  }

  lemma KeepsBoundary(t: Table<Gap>, id: nat)
    requires LegalGaps(t) && id in t.rows
    ensures id in t.born && t.rows[id].data.boundary == t.born[id].data.boundary
      && t.rows[id].data.areaId == t.born[id].data.areaId
  {
    EvolvesFromFirst(t.born[id], t.edits[id], t.rows[id], (a, b) => GapEvolves(a, b));
  }

  /**
   A caller can tell from the versions of the area: if all boundaries that it has had measure the same at the gap's
   resolution, then every hit is what a recalculation would give.
   */
  lemma HitsAgreeWhileTheAreaMeasuresTheSame(events: seq<Event>, tid: nat, id: nat)
    requires var s := After(events);
      && IsHit(s, tid, id)
      && forall row | Seen(s.areas, s.gaps.rows[id].data.areaId, row) ::
           SameMeasure(row.data.values.boundary, s.tasks[tid].area0.data.values.boundary,
                       s.gaps.rows[id].data.hash.resolution)
    ensures var s := After(events);
      |s.tasks[tid].ids| == |s.tasks[tid].runs| && Recalculates(s.tasks[tid], s.gaps.rows[id].data.finding)
  {
    hide Inv, Apply, HashOf, SameMeasure, Seen, Recalculates;
    BoundaryWasTheAreas(events, id);
    HitsAgreeWithRecomputation(events, tid, id);
  }
}
