/** Every step stores and carries on only what has been asked for, so it holds after every run. */
module OriginSteps {
  import opened Wrappers
  import opened Coverage
  import opened Checksums
  import opened Tables
  import opened Records
  import opened Workflow
  import opened Invariant
  import opened Reading
  import opened Reachability
  import opened Origins
  import RunSteps
  import GapSteps

  // ---------- One table changes, or none ----------

  lemma SameStoreAsked(events: seq<Event>, s: System, tid: nat)
    requires AllAsked(events, s)
    ensures AllAsked(events, s.Dropped(tid))
    ensures forall reply :: AllAsked(events, s.Done(tid, reply))
    ensures forall audits, reply :: AllAsked(events, s.(audits := audits).Done(tid, reply))
    ensures forall task | TaskAsked(events, task) :: AllAsked(events, s.Goto(tid, task))
  {
    hide TaskAsked, AreasAsked, PlansAsked, RunsAsked, GapsAsked;
  }

  lemma AreasBear(events: seq<Event>, s: System, tid: nat)
    requires AllAsked(events, s)
    ensures forall id, row, task | id !in s.areas.rows && AreaAsked(events, row) && TaskAsked(events, task) ::
      AllAsked(events, s.(areas := s.areas.Insert(id, row)).Goto(tid, task))
    ensures forall id, data, note, task | id in s.areas.rows && id in s.areas.edits && TaskAsked(events, task)
        && AreaEditAsked(events, id, Edit(s.areas.rows[id], Row(s.areas.rows[id].version + 1, data), note)) ::
      AllAsked(events, s.(areas := s.areas.Commit(id, data, note)).Goto(tid, task))
  {
    hide TaskAsked, AreasAsked, PlansAsked, RunsAsked, GapsAsked, AreaAsked, AreaEditAsked, Extends;
    AreasGrow(events, s.areas);
    forall id, row, task | id !in s.areas.rows && AreaAsked(events, row) && TaskAsked(events, task)
      ensures AllAsked(events, s.(areas := s.areas.Insert(id, row)).Goto(tid, task))
    {
      InsertExtends(s.areas, id, row);
      GapsOfLaterAreas(events, s.areas, s.areas.Insert(id, row), s.gaps);
    }
    forall id, data, note, task | id in s.areas.rows && id in s.areas.edits && TaskAsked(events, task)
        && AreaEditAsked(events, id, Edit(s.areas.rows[id], Row(s.areas.rows[id].version + 1, data), note))
      ensures AllAsked(events, s.(areas := s.areas.Commit(id, data, note)).Goto(tid, task))
    {
      CommitExtends(s.areas, id, data, note);
      GapsOfLaterAreas(events, s.areas, s.areas.Commit(id, data, note), s.gaps);
    }
  }

  lemma PlansBear(events: seq<Event>, s: System, tid: nat)
    requires AllAsked(events, s)
    ensures forall id, row, task | id !in s.plans.rows && TaskAsked(events, task)
        && (PlanAsked(events, row) || CopyAsked(events, s.plans, row)) ::
      AllAsked(events, s.(plans := s.plans.Insert(id, row)).Goto(tid, task))
    ensures forall id, data, note, task | id in s.plans.rows && id in s.plans.edits && TaskAsked(events, task)
        && (var e := Edit(s.plans.rows[id], Row(s.plans.rows[id].version + 1, data), note);
            PlanUpdateAsked(events, id, e) || PlanLockAsked(events, id, e)) ::
      AllAsked(events, s.(plans := s.plans.Commit(id, data, note)).Goto(tid, task))
  {
    hide TaskAsked, AreasAsked, PlansAsked, RunsAsked, GapsAsked, PlanAsked, CopyAsked, PlanUpdateAsked, PlanLockAsked;
    PlansGrow(events, s.plans);
  }

  lemma RunsBear(events: seq<Event>, s: System, tid: nat)
    requires AllAsked(events, s)
    ensures forall id, row, task | RunAsked(events, row) && TaskAsked(events, task) ::
      AllAsked(events, s.(runs := s.runs.Insert(id, row)).Goto(tid, task))
    ensures forall id, data, note, task | id in s.runs.rows && id in s.runs.edits && TaskAsked(events, task)
        && RunEditAsked(events, id, Edit(s.runs.rows[id], Row(s.runs.rows[id].version + 1, data), note)) ::
      AllAsked(events, s.(runs := s.runs.Commit(id, data, note)).Goto(tid, task))
  {
    hide TaskAsked, AreasAsked, PlansAsked, RunsAsked, GapsAsked, RunAsked, RunEditAsked;
    RunsGrow(events, s.runs);
  }

  lemma GapsBear(events: seq<Event>, s: System, tid: nat)
    requires AllAsked(events, s)
    ensures forall id, row, task | GapAsked(events, s.areas, row) && TaskAsked(events, task) ::
      AllAsked(events, s.(gaps := s.gaps.Insert(id, row)).Goto(tid, task))
    ensures forall id, data, note, task | id in s.gaps.rows && id in s.gaps.edits && TaskAsked(events, task)
        && GapEditAsked(events, id, Edit(s.gaps.rows[id], Row(s.gaps.rows[id].version + 1, data), note)) ::
      AllAsked(events, s.(gaps := s.gaps.Commit(id, data, note)).Goto(tid, task))
  {
    hide TaskAsked, AreasAsked, PlansAsked, RunsAsked, GapsAsked, GapAsked, GapEditAsked;
    GapsGrow(events, s.areas, s.gaps);
  }

  // ---------- Areas ----------

  /** What follows a write needs no asking. */
  lemma AfterWrites(events: seq<Event>)
    ensures forall audit :: TaskAsked(events, Auditing(audit))
    ensures forall id, before, expected :: TaskAsked(events, AreaWritten(id, before, expected))
    ensures forall id, before, expected :: TaskAsked(events, PlanWritten(id, before, expected))
    ensures forall id, before :: TaskAsked(events, RunWritten(id, before))
    ensures forall id, before :: TaskAsked(events, GapWritten(id, before))
  {
  }

  /** What an area request stores or carries on. */
  lemma AreaBears(events: seq<Event>, task: Task)
    requires TaskAsked(events, task)
    ensures match task
      case AreaCreate(area) =>
        ValidBoundary(area.values.boundary) ==>
          AreaAsked(events, Row(1, area.(values := area.values.(status := AreaDraft))))
      case AreaUpdate(id, version, values) =>
        forall row: Row<Area> | CheckAreaUpdate(row.data, values).None? ::
          TaskAsked(events, AreaUpdateChecked(id, version, values, row))
      case AreaUpdateChecked(id, version, values, _) =>
        forall row: Row<Area>, data | UpdatedArea(row, version, values) == Some(data) ::
          AreaEditAsked(events, id, Edit(row, Row(row.version + 1, data), ""))
      case _ => true
  {
    hide Asked;
  }

  lemma AreaStepAsked(events: seq<Event>, s: System, tid: nat, choice: Choice)
    requires TablesComplete(s) && tid in s.tasks && AllAsked(events, s) && TaskAsked(events, s.tasks[tid])
    ensures AllAsked(events, StepArea(s, tid, s.tasks[tid], choice))
  {
    hide AllAsked, TaskAsked, AreaAsked, AreaEditAsked, CodeTaken, ValidBoundary, CheckAreaUpdate, UpdatedArea;
    SameStoreAsked(events, s, tid);
    AreasBear(events, s, tid);
    AreaBears(events, s.tasks[tid]);
    AfterWrites(events);
  }

  // ---------- Plans ----------

  /** What a plan request that passes its check carries on. */
  lemma PlanPassesOn(events: seq<Event>, task: Task)
    requires TaskAsked(events, task)
    ensures match task
      case PlanCreate(areaId, content) =>
        ValidLines(content.lines) ==> TaskAsked(events, PlanCreateChecked(areaId, content))
      case PlanUpdate(id, version, content) =>
        forall row: Row<Plan> | CheckPlanUpdate(row.data, content).None? ::
          TaskAsked(events, PlanUpdateChecked(id, version, content, row))
      case PlanLock(id, version, target) =>
        forall row: Row<Plan> | CheckPlanLock(row.data, target).None? ::
            TaskAsked(events, PlanLockChecked(id, version, row))
      case PlanCopy(id) => forall row :: TaskAsked(events, PlanCopyRead(id, row))
      case PlanWritten(id, before, expected) =>
        forall row :: TaskAsked(events, Auditing(PlanChanged(id, before, row, expected)))
      case _ => true
  {
    hide Asked;
  }

  lemma PlanReadAsked(events: seq<Event>, s: System, tid: nat, choice: Choice)
    requires TablesComplete(s) && tid in s.tasks && AllAsked(events, s) && TaskAsked(events, s.tasks[tid])
    requires ReadsOnly(s.tasks[tid])
    ensures AllAsked(events, StepPlan(s, tid, s.tasks[tid], choice))
  {
    hide AllAsked, TaskAsked, CheckPlanUpdate, CheckPlanLock, ValidLines;
    SameStoreAsked(events, s, tid);
    PlanPassesOn(events, s.tasks[tid]);
  }

  /** What a plan request stores. */
  lemma PlanBears(events: seq<Event>, s: System, tid: nat)
    requires Inv(s) && tid in s.tasks && TaskAsked(events, s.tasks[tid])
    ensures match s.tasks[tid]
      case PlanCreateChecked(areaId, content) => PlanAsked(events, Row(1, Plan(areaId, content, PlanDraft)))
      case PlanUpdateChecked(id, version, content, _) =>
        forall row: Row<Plan>, data | UpdatedPlan(row, version, content) == Some(data) ::
          PlanUpdateAsked(events, id, Edit(row, Row(row.version + 1, data), ""))
      case PlanLockChecked(id, version, _) =>
        forall row: Row<Plan>, data | MovedPlan(row, version, PlanDraft, PlanLocked) == Some(data) ::
          PlanLockAsked(events, id, Edit(row, Row(row.version + 1, data), ""))
      case PlanCopyRead(id, before) => CopyAsked(events, s.plans, CopiedPlan(before))
      case _ => true
  {
    hide Inv, Asked, UsableLines, Seen, IsCopyOf, CopiedPlan;
    if s.tasks[tid].PlanCopyRead? {
      CopyIsSeen(s, tid);
    }
  }

  lemma PlanWriteAsked(events: seq<Event>, s: System, tid: nat, choice: Choice)
    requires Inv(s) && TablesComplete(s) && tid in s.tasks && AllAsked(events, s) && TaskAsked(events, s.tasks[tid])
    requires !ReadsOnly(s.tasks[tid])
    ensures AllAsked(events, StepPlan(s, tid, s.tasks[tid], choice))
  {
    hide Inv, AllAsked, TaskAsked, PlanAsked, CopyAsked, PlanUpdateAsked, PlanLockAsked, UpdatedPlan, MovedPlan,
        CopiedPlan;
    SameStoreAsked(events, s, tid);
    PlansBear(events, s, tid);
    PlanBears(events, s, tid);
    AfterWrites(events);
  }

  lemma CopyIsSeen(s: System, tid: nat)
    requires Inv(s) && tid in s.tasks && s.tasks[tid].PlanCopyRead?
    ensures var t := s.tasks[tid]; Seen(s.plans, t.id, t.planBefore) && IsCopyOf(CopiedPlan(t.planBefore), t.planBefore)
  {
    hide Inv, Seen;
    InvTask(s, tid);
  }

  // ---------- Runs ----------

  lemma RunPassesOn(events: seq<Event>, task: Task)
    requires TaskAsked(events, task)
    ensures match task
      case RunImport(request) =>
        forall row: Row<Plan> | CheckImport(row.data, request).None? ::
            TaskAsked(events, RunImportChecked(request, row))
      case RunImportChecked(request, plan) => TaskAsked(events, RunImportMissed(request, plan))
      case RunMove(id, version, target, reason) =>
        forall row: Row<Run> | CheckRunMove(row.data, target, reason).None? ::
          TaskAsked(events, RunMoveChecked(id, version, target, row))
      case RunWritten(id, before) => forall row :: TaskAsked(events, Auditing(RunChanged(id, before, row)))
      case _ => true
  {
    hide Asked;
  }

  lemma RunReadAsked(events: seq<Event>, s: System, tid: nat, choice: Choice)
    requires TablesComplete(s) && tid in s.tasks && AllAsked(events, s) && TaskAsked(events, s.tasks[tid])
    requires ReadsOnly(s.tasks[tid])
    ensures AllAsked(events, StepRun(s, tid, s.tasks[tid], choice))
  {
    hide AllAsked, TaskAsked, CheckImport, CheckRunMove, ChecksumTaken, RunWith, Payload;
    SameStoreAsked(events, s, tid);
    RunPassesOn(events, s.tasks[tid]);
  }

  /** What a run request stores. */
  lemma RunBears(events: seq<Event>, s: System, tid: nat)
    requires Inv(s) && tid in s.tasks && TaskAsked(events, s.tasks[tid])
    ensures match s.tasks[tid]
      case RunImportMissed(request, _) => request.source.swath > 0.0 ==> RunAsked(events, Row(1, ImportedRun(request)))
      case RunMoveChecked(id, version, target, before) =>
        id in s.runs.rows && id in s.runs.edits &&
        forall data | MovedRun(s.runs.rows[id], version, before.data.state, target) == Some(data) ::
          RunEditAsked(events, id, Edit(s.runs.rows[id], Row(s.runs.rows[id].version + 1, data), ""))
      case _ => true
  {
    hide Inv, Asked, UsableLines, Payload, RunMayMove, RunEditAsked;
    if s.tasks[tid].RunMoveChecked? {
      var t := s.tasks[tid];
      RunSteps.RunMoveMatches(s, tid);
      if MovedRun(s.runs.rows[t.id], t.version, t.runBefore.data.state, t.runTarget).Some? {
        MoveIsAsked(events, s, tid);
      }
    }
  }

  lemma RunWriteAsked(events: seq<Event>, s: System, tid: nat, choice: Choice)
    requires Inv(s) && TablesComplete(s) && tid in s.tasks && AllAsked(events, s) && TaskAsked(events, s.tasks[tid])
    requires !ReadsOnly(s.tasks[tid])
    ensures AllAsked(events, StepRun(s, tid, s.tasks[tid], choice))
  {
    hide Inv, AllAsked, TaskAsked, RunAsked, RunEditAsked, MovedRun, ImportedRun, RunTaken;
    SameStoreAsked(events, s, tid);
    RunsBear(events, s, tid);
    RunBears(events, s, tid);
    AfterWrites(events);
  }

  lemma MoveIsAsked(events: seq<Event>, s: System, tid: nat)
    requires Inv(s) && tid in s.tasks && s.tasks[tid].RunMoveChecked? && TaskAsked(events, s.tasks[tid])
    requires var t := s.tasks[tid];
      t.id in s.runs.rows && MovedRun(s.runs.rows[t.id], t.version, t.runBefore.data.state, t.runTarget).Some?
    ensures var t := s.tasks[tid]; var row := s.runs.rows[t.id];
      RunEditAsked(events, t.id, Edit(row, Row(row.version + 1, row.data.(state := t.runTarget)), ""))
  {
    hide Inv, Asked;
    RunSteps.RunMoveMatches(s, tid);
    TablesAreTheseEdges();
  }

  // ---------- Gaps ----------

  lemma GapPassesOn(events: seq<Event>, task: Task)
    requires TaskAsked(events, task)
    ensures match task
      case GapDetect(detect) =>
        8 <= |detect.key| <= 120 ==> forall area :: TaskAsked(events, GapDetectArea(detect, area))
      case GapDetectArea(detect, area) => forall ids, runs :: TaskAsked(events, GapDetectRuns(detect, area, ids, runs))
      case GapDetectRuns(detect, area, ids, runs) =>
        forall plans :: TaskAsked(events, GapDetectHashed(detect, area, ids, runs, plans))
      case GapDetectHashed(detect, area, ids, runs, plans) =>
        TaskAsked(events, GapDetectMissed(detect, area, ids, runs, plans))
      case GapMove(id, version, target, note) =>
        forall row :: TaskAsked(events, GapMoveChecked(id, version, target, note, row))
      case GapWritten(id, before) => forall row :: TaskAsked(events, Auditing(GapChanged(id, before, row)))
      case _ => true
  {
    hide Asked;
  }

  lemma GapReadAsked(events: seq<Event>, s: System, tid: nat, choice: Choice)
    requires TablesComplete(s) && tid in s.tasks && AllAsked(events, s) && TaskAsked(events, s.tasks[tid])
    requires ReadsOnly(s.tasks[tid])
    ensures AllAsked(events, StepGap(s, tid, s.tasks[tid], choice))
  {
    hide AllAsked, TaskAsked, HashTaken, HashOf, GapWith, CheckSources, UniqueIds, IsAnswer, AllIn, CheckGapMove,
        PlanIdsOf, RowsOf, DataOf;
    SameStoreAsked(events, s, tid);
    GapPassesOn(events, s.tasks[tid]);
  }

  lemma ReviewAsked(events: seq<Event>, s: System, tid: nat, choice: Choice)
    requires Inv(s) && TablesComplete(s) && tid in s.tasks && AllAsked(events, s) && TaskAsked(events, s.tasks[tid])
    requires s.tasks[tid].GapMoveChecked?
    ensures AllAsked(events, StepGap(s, tid, s.tasks[tid], choice))
  {
    hide Inv, AllAsked, TaskAsked, GapEditAsked, MovedGap, Annotated;
    SameStoreAsked(events, s, tid);
    GapsBear(events, s, tid);
    AfterWrites(events);
    var t := s.tasks[tid];
    var explanation := Annotated(t.gapBefore.data.explanation, t.note);
    if t.id in s.gaps.rows
      && MovedGap(s.gaps.rows[t.id], t.version, t.gapBefore.data.state, t.gapTarget, explanation).Some? {
      ReviewIsAsked(events, s, tid);
    }
  }

  lemma ReviewIsAsked(events: seq<Event>, s: System, tid: nat)
    requires Inv(s) && tid in s.tasks && s.tasks[tid].GapMoveChecked? && TaskAsked(events, s.tasks[tid])
    requires var t := s.tasks[tid];
      t.id in s.gaps.rows && MovedGap(s.gaps.rows[t.id], t.version, t.gapBefore.data.state, t.gapTarget,
                                      Annotated(t.gapBefore.data.explanation, t.note)).Some?
    ensures var t := s.tasks[tid]; var row := s.gaps.rows[t.id];
      var data := MovedGap(row, t.version, t.gapBefore.data.state, t.gapTarget,
                           Annotated(t.gapBefore.data.explanation, t.note)).value;
      GapEditAsked(events, t.id, Edit(row, Row(row.version + 1, data), t.note))
  {
    hide Inv, Asked;
    GapSteps.GapMoveMatches(s, tid);
    TablesAreTheseEdges();
  }

  lemma DetectionStored(events: seq<Event>, s: System, tid: nat, choice: Choice)
    requires Inv(s) && TablesComplete(s) && tid in s.tasks && AllAsked(events, s) && TaskAsked(events, s.tasks[tid])
    requires s.tasks[tid].GapDetectMissed?
    ensures AllAsked(events, StepGap(s, tid, s.tasks[tid], choice))
  {
    hide Inv, AllAsked, DetectAsked, HashTaken, HashOf, Outcome, TracksOf, DataOf, ChosenResolution, DetectedGap,
        GapAsked;
    SameStoreAsked(events, s, tid);
    GapsBear(events, s, tid);
    var t := s.tasks[tid];
    if |t.ids| == |t.runs| {
      var outcome := Outcome(t.area0.data.values.boundary, TracksOf(t.ids, DataOf(t.runs)),
                             ChosenResolution(t.detect, t.area0.data));
      if outcome.Ok? {
        DetectionIsAsked(events, s, tid, outcome.value);
        var row := Row(1, DetectedGap(t.detect, t.area0.data, HashOf(t.detect, t.area0.data, DataOf(t.runs)),
                                      outcome.value));
        assert TaskAsked(events, Auditing(GapAdded(choice.newId, row)));
      }
    }
  }

  lemma DetectionIsAsked(events: seq<Event>, s: System, tid: nat, result: CoverageResult)
    requires Inv(s) && tid in s.tasks && s.tasks[tid].GapDetectMissed? && DetectAsked(events, s.tasks[tid].detect)
    ensures var t := s.tasks[tid];
      GapAsked(events, s.areas,
               Row(1, DetectedGap(t.detect, t.area0.data, HashOf(t.detect, t.area0.data, DataOf(t.runs)), result)))
  {
    hide Inv, DetectAsked, Seen, FindingOf, DetectionText, UniqueIds, Sorted, DataOf, SeenAll;
    InvTask(s, tid);
    var t := s.tasks[tid];
    UniqueIdsAreTheSameIds(t.detect.runIds);
    var gap := DetectedGap(t.detect, t.area0.data, HashOf(t.detect, t.area0.data, DataOf(t.runs)), result);
    assert IsDetectionOf(gap, t.detect, t.area0.data);
  }

  // ---------- Whole runs ----------

  lemma StepAsked(events: seq<Event>, s: System, tid: nat, choice: Choice)
    requires Inv(s) && TablesComplete(s) && tid in s.tasks && AllAsked(events, s)
    ensures AllAsked(events, Step(s, tid, choice))
  {
    hide Inv, StepArea, StepPlan, StepRun, StepGap, AllAsked, TaskAsked;
    TaskIsAsked(events, s, tid);
    SameStoreAsked(events, s, tid);
    AreaStepAsked(events, s, tid, choice);
    if ReadsOnly(s.tasks[tid]) {
      PlanReadAsked(events, s, tid, choice);
      RunReadAsked(events, s, tid, choice);
      GapReadAsked(events, s, tid, choice);
    } else {
      PlanWriteAsked(events, s, tid, choice);
      RunWriteAsked(events, s, tid, choice);
      if s.tasks[tid].GapMoveChecked? {
        ReviewAsked(events, s, tid, choice);
      } else if s.tasks[tid].GapDetectMissed? {
        DetectionStored(events, s, tid, choice);
      }
    }
  }

  lemma TaskIsAsked(events: seq<Event>, s: System, tid: nat)
    requires tid in s.tasks && AllAsked(events, s)
    ensures TaskAsked(events, s.tasks[tid])
  {
    hide AreasAsked, PlansAsked, RunsAsked, GapsAsked, TaskAsked;
  }

  lemma ArrivalIsAsked(events: seq<Event>, tid: nat, request: Task)
    requires request.IsRequest()
    ensures TaskAsked(events + [Arrive(tid, request)], request)
  {
    var all := events + [Arrive(tid, request)];
    assert all[|events|] == Arrive(tid, request);
    assert Asked(all, request);
  }

  /** After every run: everything stored, and every request in flight, is what some request that arrived asked for. */
  lemma {:induction false} AlwaysAsked(events: seq<Event>)
    ensures AllAsked(events, After(events))
  {
    hide Inv, Step, AllAsked, TaskAsked;
    if events == [] {
      NothingAsked();
    } else {
      var before, e := events[..|events| - 1], events[|events| - 1];
      var s := After(before);
      assert events == before + [e];
      AlwaysAsked(before);
      AlwaysSound(before);
      AllStaysAsked(before, e, s);
      match e
      case Arrive(tid, task) =>
        if tid !in s.tasks && task.IsRequest() {
          ArrivalIsAsked(before, tid, task);
          SameStoreAsked(events, s, tid);
        }
      case Abandon(tid) =>
        SameStoreAsked(events, s, tid);
      case Advance(tid, choice) =>
        if tid in s.tasks {
          StepAsked(events, s, tid, choice);
        }
    }
  }

  lemma NothingAsked()
    ensures AllAsked([], Start())
  {
  }
}
