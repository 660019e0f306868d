/** Runs of the system, and what holds after every run. */
module Reachability {
  import opened Collections
  import opened Wrappers
  import opened Coverage
  import opened States
  import opened Checksums
  import opened Tables
  import opened Records
  import opened Evolution
  import opened Workflow
  import opened Invariant
  import opened Preservation
  import opened RunInputs
  import opened Reading
  import PlanSteps
  import RunSteps
  import GapSteps

  lemma StartIsSound()
    ensures Inv(Start())
  {
  }

  lemma StepKeeps(s: System, tid: nat, choice: Choice)
    requires Inv(s) && TablesComplete(s) && tid in s.tasks
    ensures Inv(Step(s, tid, choice))
  {
    hide Inv, TaskOk, AuditOk, StepArea, StepPlan, StepRun, StepGap;
    StepAreaKeeps(s, tid, choice);
    PlanSteps.StepPlanKeeps(s, tid, choice);
    RunSteps.StepRunKeeps(s, tid, choice);
    GapSteps.StepGapKeeps(s, tid, choice);
    if s.tasks[tid].Auditing? {
      AuditKnown(s, tid);
      AuditKeeps(s, tid, s.tasks[tid].audit);
    }
  }

  lemma AuditKnown(s: System, tid: nat)
    requires Inv(s) && tid in s.tasks && s.tasks[tid].Auditing?
    ensures AuditOk(s, s.tasks[tid].audit)
  {
    hide Inv, AuditOk;
    InvTask(s, tid);
  }

  lemma RequestIsOk(s: System, task: Task)
    requires task.IsRequest()
    ensures TaskOk(s, task)
  {
  }

  lemma ApplyKeeps(s: System, e: Event)
    requires Inv(s) && TablesComplete(s)
    ensures Inv(Apply(s, e))
  {
    hide Inv, TaskOk, AuditOk, Step;
    match e
    case Arrive(tid, task) =>
      if tid !in s.tasks && task.IsRequest() {
        RequestIsOk(s, task);
        ReadKeeps(s, tid, task);
      }
    case Advance(tid, choice) =>
      if tid in s.tasks {
        StepKeeps(s, tid, choice);
      }
    case Abandon(tid) =>
      DoneKeeps(s, tid);
  }

  /** The state after a run of events, in whatever order they happen. */
  ghost function After(events: seq<Event>): (s: System)
    ensures TablesComplete(s)
  {
    if events == [] then Start() else Apply(After(events[..|events| - 1]), events[|events| - 1])
  }

  /** The invariant holds in every reachable state. */
  lemma {:induction false} AlwaysSound(events: seq<Event>)
    ensures Inv(After(events))
  {
    hide Inv, Apply;
    if events == [] {
      StartIsSound();
    } else {
      AlwaysSound(events[..|events| - 1]);
      ApplyKeeps(After(events[..|events| - 1]), events[|events| - 1]);
    }
  }

  // ---------- References between entities ----------

  /**
   Every gap's source runs exist, are processed or superseded, have valid navigation and sit on locked plans of the
   gap's own area; the stored finding is what those runs give for the boundary it was detected with.
   */
  lemma GapsRestOnSoundRuns(events: seq<Event>, id: nat)
    requires id in After(events).gaps.rows
    ensures var s := After(events); SoundGap(s.areas.rows, s.plans.rows, s.runs.rows, s.gaps.rows[id].data)
  {
    hide Inv, Apply, SoundGap;
    AlwaysSound(events);
    GapSteps.AllGapsSound(After(events));
  }

  lemma RunsSitOnLockedPlans(events: seq<Event>, id: nat)
    requires id in After(events).runs.rows
    ensures var s := After(events); SoundRun(s.plans.rows, s.runs.rows[id].data)
  {
    hide Inv, Apply, SoundRun;
    AlwaysSound(events);
    RunSteps.AllRunsSound(After(events));
  }

  /** However imports interleave, no two runs share a checksum or a code, and no two gaps an input hash. */
  lemma KeysStayUnique(events: seq<Event>)
    ensures var s := After(events); UniqueRuns(s.runs.rows) && UniqueGaps(s.gaps.rows) && UniqueAreas(s.areas.rows)
  {
    hide Inv, Apply, UniqueRuns, UniqueGaps, UniqueAreas;
    AlwaysSound(events);
    InvParts(After(events));
  }

  // ---------- Histories ----------

  /** A row's version is its first version plus the number of writes it has received. */
  lemma VersionsCountWrites(events: seq<Event>, id: nat)
    ensures var s := After(events);
      && (id in s.areas.rows ==>
            id in s.areas.born && s.areas.rows[id].version == s.areas.born[id].version + |s.areas.edits[id]|)
      && (id in s.plans.rows ==>
            id in s.plans.born && s.plans.rows[id].version == s.plans.born[id].version + |s.plans.edits[id]|)
      && (id in s.runs.rows ==>
            id in s.runs.born && s.runs.rows[id].version == s.runs.born[id].version + |s.runs.edits[id]|)
      && (id in s.gaps.rows ==>
            id in s.gaps.born && s.gaps.rows[id].version == s.gaps.born[id].version + |s.gaps.edits[id]|)
  {
    hide Inv, Apply;
    var s := After(events);
    AlwaysSound(events);
    InvParts(s);
    if id in s.areas.rows { VersionsCount(s.areas.born[id], s.areas.edits[id], s.areas.rows[id]); }
    if id in s.plans.rows { VersionsCount(s.plans.born[id], s.plans.edits[id], s.plans.rows[id]); }
    if id in s.runs.rows { VersionsCount(s.runs.born[id], s.runs.edits[id], s.runs.rows[id]); }
    if id in s.gaps.rows { VersionsCount(s.gaps.born[id], s.gaps.edits[id], s.gaps.rows[id]); }
  }

  /** The edits lead from the first row to the present one, and each makes an allowed change. */
  ghost predicate IsPath<R>(t: Table<R>, id: nat, allowed: (R, R) -> bool)
    requires id in t.rows && id in t.edits && id in t.born
  {
    var e := t.edits[id];
    && (forall i | 0 <= i < |e| :: allowed(e[i].before.data, e[i].after.data))
    && (forall i | 0 < i < |e| :: e[i].before == e[i - 1].after)
    && (if e == [] then t.born[id] == t.rows[id] else e[0].before == t.born[id] && e[|e| - 1].after == t.rows[id])
  }

  function RunMoves(): (Run, Run) -> bool {
    (a: Run, b: Run) => a.state.CanTransition(b.state)
  }

  function GapMoves(): (Gap, Gap) -> bool {
    (a: Gap, b: Gap) => a.state.CanTransition(b.state)
  }

  lemma RunPath(t: Table<Run>, id: nat)
    requires LegalRuns(t) && id in t.rows
    ensures |t.edits[id]| <= 4 && IsPath(t, id, RunMoves())
  {
    RunHistoryIsShort(t.born[id], t.edits[id], t.rows[id]);
    HistoryChains(t.born[id], t.edits[id], t.rows[id]);
  }

  lemma GapPath(t: Table<Gap>, id: nat)
    requires LegalGaps(t) && id in t.rows
    ensures |t.edits[id]| <= 4 && IsPath(t, id, GapMoves())
  {
    hide Annotated;
    GapHistoryIsShort(t.born[id], t.edits[id], t.rows[id]);
    HistoryChains(t.born[id], t.edits[id], t.rows[id]);
  }

  /** A run's history is a path of at most four transitions in the run state machine, begun in the imported state. */
  lemma RunHistoriesArePaths(events: seq<Event>, id: nat)
    requires id in After(events).runs.rows
    ensures var t := After(events).runs;
      id in t.edits && id in t.born && |t.edits[id]| <= 4 && IsPath(t, id, RunMoves())
          && t.born[id].data.state == Imported
  {
    hide Inv, Apply, LegalRuns, IsPath;
    AlwaysSound(events);
    InvParts(After(events));
    RowsBeginWell(events);
    RunPath(After(events).runs, id);
  }

  /** A gap's history is a path of at most four transitions in the gap state machine, begun in the detected state. */
  lemma GapHistoriesArePaths(events: seq<Event>, id: nat)
    requires id in After(events).gaps.rows
    ensures var t := After(events).gaps;
      id in t.edits && id in t.born && |t.edits[id]| <= 4 && IsPath(t, id, GapMoves())
          && t.born[id].data.state == Detected
  {
    hide Inv, Apply, LegalGaps, IsPath;
    AlwaysSound(events);
    InvParts(After(events));
    RowsBeginWell(events);
    GapPath(After(events).gaps, id);
  }

  /**
   No review note is lost: the explanation is the text of the detection, which describes the stored finding,
   followed by the notes of all successful reviews in commit order.
   */
  lemma NoNoteIsLost(events: seq<Event>, id: nat) returns (result: CoverageResult)
    requires id in After(events).gaps.rows
    ensures var t := After(events).gaps;
      && id in t.edits
      && t.rows[id].data.finding == FindingOf(result)
      && t.rows[id].data.explanation
           == DetectionText(t.rows[id].data.hash.resolution, result) + ReviewLog(NotesOf(t.edits[id]))
  {
    hide Inv, Apply, FindingOf, DetectionText, ReviewLog, NotesOf, LegalGaps;
    var t := After(events).gaps;
    AlwaysSound(events);
    InvParts(After(events));
    RowsBeginWell(events);
    var first := t.born[id].data;
    result :| first.finding == FindingOf(result) && first.explanation == DetectionText(first.hash.resolution, result);
    NotesOfRow(t, id);
  }

  lemma NotesOfRow(t: Table<Gap>, id: nat)
    requires LegalGaps(t) && id in t.rows
    ensures t.rows[id].data.explanation == t.born[id].data.explanation + ReviewLog(NotesOf(t.edits[id]))
    ensures t.rows[id].data.finding == t.born[id].data.finding && t.rows[id].data.hash == t.born[id].data.hash
  {
    ExplanationIsAllNotes(t.born[id], t.edits[id], t.rows[id]);
    EvolvesFromFirst(t.born[id], t.edits[id], t.rows[id], (a, b) => GapEvolves(a, b));
  }

  // ---------- How rows begin ----------

  ghost predicate BornAreas(t: Table<Area>) {
    forall id | id in t.born :: t.born[id].version == 1 && t.born[id].data.values.status == AreaDraft
  }

  ghost predicate BornPlans(t: Table<Plan>) {
    forall id | id in t.born :: t.born[id].data.state == PlanDraft
  }

  ghost predicate BornRuns(t: Table<Run>) {
    forall id | id in t.born :: t.born[id].version == 1 && ImportedAtFirst(t.born[id].data)
  }

  /** A run as an import stores it: with usable lines, under the checksum of the source that was imported. */
  ghost predicate ImportedAtFirst(run: Run) {
    && run.state == Imported && ValidLines(run.lines)
    && exists source: Source :: IsSourceOf(source, run)
  }

  ghost predicate IsSourceOf(source: Source, run: Run) {
    && source.swath > 0.0 && source.startedAt < source.endedAt
    && source.planId == run.planId && source.swath == run.swath && run.checksum == Payload(source)
  }

  lemma ImportStartsWell(plan: Plan, request: ImportRequest)
    requires request.source.swath > 0.0 && CheckImport(plan, request).None?
    ensures ImportedAtFirst(ImportedRun(request))
  {
    hide Payload, ValidLines;
    assert IsSourceOf(request.source, ImportedRun(request));
  }

  ghost predicate BornGaps(t: Table<Gap>) {
    forall id | id in t.born :: t.born[id].version == 1 && DetectedAtFirst(t.born[id].data)
  }

  ghost predicate WellBorn(s: System) {
    BornAreas(s.areas) && BornPlans(s.plans) && BornRuns(s.runs) && BornGaps(s.gaps)
  }

  lemma AreasBearWell(s: System)
    requires WellBorn(s)
    ensures forall id, row: Row<Area>, tid, task | row.version == 1 && row.data.values.status == AreaDraft ::
      WellBorn(s.(areas := s.areas.Insert(id, row)).Goto(tid, task))
    ensures forall id, data, note, tid, task | id in s.areas.rows && id in s.areas.edits ::
      WellBorn(s.(areas := s.areas.Commit(id, data, note)).Goto(tid, task))
  {
  }

  lemma PlansBearWell(s: System)
    requires WellBorn(s)
    ensures forall id, row: Row<Plan>, tid, task | row.data.state == PlanDraft ::
      WellBorn(s.(plans := s.plans.Insert(id, row)).Goto(tid, task))
    ensures forall id, data, note, tid, task | id in s.plans.rows && id in s.plans.edits ::
      WellBorn(s.(plans := s.plans.Commit(id, data, note)).Goto(tid, task))
  {
  }

  lemma RunsBearWell(s: System)
    requires WellBorn(s)
    ensures forall id, row: Row<Run>, tid, task | row.version == 1 && ImportedAtFirst(row.data) ::
      WellBorn(s.(runs := s.runs.Insert(id, row)).Goto(tid, task))
    ensures forall id, data, note, tid, task | id in s.runs.rows && id in s.runs.edits ::
      WellBorn(s.(runs := s.runs.Commit(id, data, note)).Goto(tid, task))
  {
    hide ImportedAtFirst;
  }

  lemma GapsBearWell(s: System)
    requires WellBorn(s)
    ensures forall id, row: Row<Gap>, tid, task | row.version == 1 && DetectedAtFirst(row.data) ::
      WellBorn(s.(gaps := s.gaps.Insert(id, row)).Goto(tid, task))
    ensures forall id, data, note, tid, task | id in s.gaps.rows && id in s.gaps.edits ::
      WellBorn(s.(gaps := s.gaps.Commit(id, data, note)).Goto(tid, task))
  {
    hide DetectedAtFirst;
  }

  /** A gap as a detection stores it: not yet reviewed, explained by the text for its own result. */
  ghost predicate DetectedAtFirst(gap: Gap) {
    gap.state == Detected && exists result ::
        gap.finding == FindingOf(result) && gap.explanation == DetectionText(gap.hash.resolution, result)
  }

  lemma DetectionStartsWell(detect: DetectRequest, area: Area, runs: seq<Run>, result: CoverageResult)
    ensures DetectedAtFirst(DetectedGap(detect, area, HashOf(detect, area, runs), result))
  {
    hide FindingOf, DetectionText;
    var gap := DetectedGap(detect, area, HashOf(detect, area, runs), result);
    assert gap.finding == FindingOf(result) && gap.explanation == DetectionText(gap.hash.resolution, result);
  }

  lemma DetectionBearsWell(s: System, tid: nat, choice: Choice)
    requires TablesComplete(s) && tid in s.tasks && s.tasks[tid].GapDetectMissed? && WellBorn(s)
    ensures WellBorn(StepGap(s, tid, s.tasks[tid], choice))
  {
    hide Outcome, HashTaken, DetectedGap, HashOf, TracksOf, DataOf, ChosenResolution, DetectedAtFirst, WellBorn;
    GapsBearWell(s);
    SameBorn(s);
    var t := s.tasks[tid];
    if |t.ids| == |t.runs| {
      var outcome := Outcome(t.area0.data.values.boundary, TracksOf(t.ids, DataOf(t.runs)),
                             ChosenResolution(t.detect, t.area0.data));
      if outcome.Ok? {
        DetectionStartsWell(t.detect, t.area0.data, DataOf(t.runs), outcome.value);
      }
    }
  }

  lemma OtherGapStepsBearWell(s: System, tid: nat, choice: Choice)
    requires TablesComplete(s) && tid in s.tasks && !ReadsOnly(s.tasks[tid]) && !s.tasks[tid].GapDetectMissed?
      && WellBorn(s)
    ensures WellBorn(StepGap(s, tid, s.tasks[tid], choice))
  {
    hide Outcome, HashTaken, CheckSources, UniqueIds, Annotated, HashOf, IsAnswer, AllIn, MovedGap, CheckGapMove,
        PlanIdsOf, RowsOf, DataOf, DetectedAtFirst, WellBorn;
    GapsBearWell(s);
    SameBorn(s);
  }

  lemma AreaStepsBearWell(s: System, tid: nat, choice: Choice)
    requires TablesComplete(s) && tid in s.tasks && !ReadsOnly(s.tasks[tid]) && WellBorn(s)
    ensures WellBorn(StepArea(s, tid, s.tasks[tid], choice))
  {
    hide ValidBoundary, CodeTaken, WellBorn;
    AreasBearWell(s);
    SameBorn(s);
  }

  lemma CopiesAreDrafts()
    ensures forall row :: CopiedPlan(row).data.state == PlanDraft
  {
  }

  lemma PlanStepsBearWell(s: System, tid: nat, choice: Choice)
    requires TablesComplete(s) && tid in s.tasks && !ReadsOnly(s.tasks[tid]) && WellBorn(s)
    ensures WellBorn(StepPlan(s, tid, s.tasks[tid], choice))
  {
    hide ValidLines, CheckPlanUpdate, CheckPlanLock, UpdatedPlan, MovedPlan, CopiedPlan, WellBorn;
    CopiesAreDrafts();
    PlansBearWell(s);
    SameBorn(s);
  }

  lemma RunStepsBearWell(s: System, tid: nat, choice: Choice)
    requires Inv(s) && TablesComplete(s) && tid in s.tasks && !ReadsOnly(s.tasks[tid]) && WellBorn(s)
    ensures WellBorn(StepRun(s, tid, s.tasks[tid], choice))
  {
    hide Inv, RunTaken, ChecksumTaken, CheckImport, Payload, ImportedAtFirst, ImportedRun, WellBorn;
    RunsBearWell(s);
    SameBorn(s);
    if s.tasks[tid].RunImportMissed? && s.tasks[tid].request.source.swath > 0.0 {
      MissedWasChecked(s, tid);
      ImportStartsWell(s.tasks[tid].plan.data, s.tasks[tid].request);
    }
  }

  lemma MissedWasChecked(s: System, tid: nat)
    requires Inv(s) && tid in s.tasks && s.tasks[tid].RunImportMissed?
    ensures CheckImport(s.tasks[tid].plan.data, s.tasks[tid].request).None?
  {
    hide Inv, CheckImport, Seen;
    InvTask(s, tid);
  }

  lemma StepBearsWell(s: System, tid: nat, choice: Choice)
    requires Inv(s) && TablesComplete(s) && tid in s.tasks && WellBorn(s)
    ensures WellBorn(Step(s, tid, choice))
  {
    hide Inv, StepArea, StepPlan, StepRun, StepGap, WellBorn;
    var task := s.tasks[tid];
    SameBorn(s);
    if ReadsOnly(task) {
      AreaReads(s, tid, task, choice);
      PlanReads(s, tid, task, choice);
      RunReads(s, tid, task, choice);
      GapReads(s, tid, task, choice);
      SameStoreBorn(s, Step(s, tid, choice));
    } else {
      AreaStepsBearWell(s, tid, choice);
      PlanStepsBearWell(s, tid, choice);
      RunStepsBearWell(s, tid, choice);
      if task.GapDetectMissed? {
        DetectionBearsWell(s, tid, choice);
      } else {
        OtherGapStepsBearWell(s, tid, choice);
      }
    }
  }

  lemma SameStoreBorn(s: System, later: System)
    requires WellBorn(s) && SameStore(s, later)
    ensures WellBorn(later)
  {
    hide BornAreas, BornPlans, BornRuns, BornGaps;
  }

  lemma {:induction false} RowsBeginWell(events: seq<Event>)
    ensures WellBorn(After(events))
  {
    hide Inv, Step, WellBorn;
    if events == [] {
      NothingBorn();
    } else {
      var s, e := After(events[..|events| - 1]), events[|events| - 1];
      RowsBeginWell(events[..|events| - 1]);
      AlwaysSound(events[..|events| - 1]);
      SameBorn(s);
      if e.Advance? && e.tid in s.tasks {
        StepBearsWell(s, e.tid, e.choice);
      }
    }
  }

  lemma NothingBorn()
    ensures WellBorn(Start())
  {
  }

  lemma SameBorn(s: System)
    requires WellBorn(s)
    ensures forall tid, task :: WellBorn(s.Goto(tid, task))
    ensures forall tid :: WellBorn(s.Dropped(tid))
    ensures forall tid, reply :: WellBorn(s.Done(tid, reply))
    ensures forall audits, tid, reply :: WellBorn(s.(audits := audits).Done(tid, reply))
  {
    hide BornAreas, BornPlans, BornRuns, BornGaps;
  }

  // ---------- The detection cache ----------

  /** Two hashes agree exactly when area, coordinate system, algorithm, resolution and set of runs agree. */
  lemma HashesAgree(s: System, gap: Gap, detect: DetectRequest, area: Row<Area>, ids: seq<nat>, runs: seq<Row<Run>>,
                    plans: seq<Row<Plan>>)
    requires Inv(s) && SoundGap(s.areas.rows, s.plans.rows, s.runs.rows, gap)
    requires CheckedRuns(s, detect, area, ids, runs, plans)
    ensures gap.hash == HashOf(detect, area.data, DataOf(runs)) <==>
      && gap.areaId == detect.areaId && gap.hash.coordinateSystem == area.data.values.coordinateSystem
      && gap.algorithm == detect.algorithm && gap.hash.resolution == ChosenResolution(detect, area.data)
      && (forall id :: id in gap.sourceRuns <==> id in detect.runIds)
  {
    hide Inv, Outcome, FindingOf, ChosenResolution, Sorted;
    GapSteps.CheckedInputs(s, detect, area, ids, runs, plans);
    GapSteps.SoundSourcesExist(s.runs.rows, s.plans.rows, gap.areaId, gap.sourceRuns);
    GapSteps.SoundSourcesExist(s.runs.rows, s.plans.rows, detect.areaId, ids);
    InvParts(s);
    var mine, theirs := ChecksumsOf(RunsFor(s.runs.rows, gap.sourceRuns)), ChecksumsOf(RunsFor(s.runs.rows, ids));
    HashIgnoresOnlyOrder(mine, theirs);
    if Sorted(mine) == Sorted(theirs) {
      ChecksumsTellRuns(s.runs.rows, gap.sourceRuns, ids);
      ChecksumsTellRuns(s.runs.rows, ids, gap.sourceRuns);
    }
    if forall id :: id in gap.sourceRuns <==> id in detect.runIds {
      SameMembers(gap.sourceRuns, ids);
      OrderDoesNotMatter(s.runs.rows, gap.sourceRuns, ids, gap.boundary, gap.hash.resolution);
    }
  }

  /** Checksums are unique, so a run whose checksum is among those of a list of runs is one of them. */
  lemma ChecksumsTellRuns(runs: map<nat, Row<Run>>, a: seq<nat>, b: seq<nat>)
    requires UniqueRuns(runs)
    requires forall id | id in a :: id in runs
    requires forall id | id in b :: id in runs
    requires multiset(ChecksumsOf(RunsFor(runs, a))) == multiset(ChecksumsOf(RunsFor(runs, b)))
    ensures forall id | id in a :: id in b
  {
    hide ChecksumsOf, RunsFor;
    var mine, theirs := ChecksumsOf(RunsFor(runs, a)), ChecksumsOf(RunsFor(runs, b));
    forall id | id in a
      ensures id in b
    {
      var i :| 0 <= i < |a| && a[i] == id;
      assert mine[i] in multiset(mine);
      assert mine[i] in theirs;
      var j :| 0 <= j < |theirs| && theirs[j] == mine[i];
      assert runs[b[j]].data.checksum == runs[id].data.checksum;
      assert b[j] == id;
    }
  }

  lemma HashedIsChecked(s: System, tid: nat)
    requires Inv(s) && tid in s.tasks && s.tasks[tid].GapDetectHashed?
    ensures var t := s.tasks[tid]; CheckedRuns(s, t.detect, t.area0, t.ids, t.runs, t.plans)
  {
    hide Inv, CheckedRuns;
    InvTask(s, tid);
  }

  lemma HitAgrees(s: System, t: Task, gap: Gap)
    requires Inv(s) && t.GapDetectHashed? && CheckedRuns(s, t.detect, t.area0, t.ids, t.runs, t.plans)
    requires SoundGap(s.areas.rows, s.plans.rows, s.runs.rows, gap)
    requires gap.hash == HashOf(t.detect, t.area0.data, DataOf(t.runs))
    ensures var again := Outcome(gap.boundary, TracksOf(t.ids, DataOf(t.runs)),
                                 ChosenResolution(t.detect, t.area0.data));
      again.Ok? && FindingOf(again.value) == gap.finding
  {
    hide Inv, Outcome, FindingOf, ChosenResolution, HashOf, SoundSource, CheckedRuns, HashesItsRuns;
    HashesAgree(s, gap, t.detect, t.area0, t.ids, t.runs, t.plans);
    CheckedAgain(s, t, gap);
  }

  lemma CheckedAgain(s: System, t: Task, gap: Gap)
    requires Inv(s) && t.GapDetectHashed? && CheckedRuns(s, t.detect, t.area0, t.ids, t.runs, t.plans)
    requires SoundGap(s.areas.rows, s.plans.rows, s.runs.rows, gap)
    requires forall id :: id in gap.sourceRuns <==> id in t.detect.runIds
    ensures forall boundary, resolution ::
      Outcome(boundary, TracksOf(t.ids, DataOf(t.runs)), resolution)
        == Outcome(boundary, TracksOf(gap.sourceRuns, RunsFor(s.runs.rows, gap.sourceRuns)), resolution)
  {
    hide Inv, Outcome, FindingOf, ChosenResolution, Sorted;
    GapSteps.CheckedInputs(s, t.detect, t.area0, t.ids, t.runs, t.plans);
    GapSteps.SoundSourcesExist(s.runs.rows, s.plans.rows, gap.areaId, gap.sourceRuns);
    GapSteps.SoundSourcesExist(s.runs.rows, s.plans.rows, t.detect.areaId, t.ids);
    SameMembers(gap.sourceRuns, t.ids);
    forall boundary, resolution
      ensures Outcome(boundary, TracksOf(t.ids, DataOf(t.runs)), resolution)
           == Outcome(boundary, TracksOf(gap.sourceRuns, RunsFor(s.runs.rows, gap.sourceRuns)), resolution)
    {
      OrderDoesNotMatter(s.runs.rows, t.ids, gap.sourceRuns, boundary, resolution);
    }
  }
}
