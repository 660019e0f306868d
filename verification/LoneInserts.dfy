/** Requests that insert a row, left alone: their tasks do and answer what the request functions say. */
module LoneInserts {
  import opened Collections
  import opened Wrappers
  import opened Coverage
  import opened Checksums
  import opened Tables
  import opened Records
  import opened Workflow
  import opened Overtaking
  import opened Requests

  // ---------- Areas and plans ----------

  lemma AreaCreateAlone(s: System, tid: nat, area: Area, choice: Choice)
    requires TablesComplete(s) && tid !in s.tasks && choice.newId !in s.areas.rows
    ensures From(s, Alone(tid, AreaCreate(area), choice, 2)) == AfterAreaCreate(s, area, choice.newId).Told(tid)
  {
    hide ValidBoundary, CodeTaken, Apply, From, Alone;
    ComesAndGoes(s, tid);
    var start := Position(s, AreaCreate(area));
    var done := AfterAreaCreate(s, area, choice.newId);
    var here := s.Goto(tid, start.task);
    AreaTaskMoves(here, tid, choice);
    if ValidBoundary(area.values.boundary) && !CodeTaken(s.areas.rows, area.code) {
      var row := Row(1, area.(values := area.values.(status := AreaDraft)));
      var written := s.(areas := s.areas.Insert(choice.newId, row));
      var audit := AreaAdded(choice.newId, row);
      ComesAndGoes(written, tid);
      assert here.(areas := written.areas) == written.Goto(tid, start.task);
      AuditEnds(written, tid, choice, audit);
      TwoSteps(start, Position(written, Auditing(audit)), tid, choice, 2, done);
    } else {
      OneStep(start, tid, choice, 2, done);
    }
  }

  lemma PlanCreateAlone(s: System, tid: nat, areaId: nat, content: PlanContent, choice: Choice)
    requires TablesComplete(s) && tid !in s.tasks && choice.newId !in s.plans.rows
    ensures From(s, Alone(tid, PlanCreate(areaId, content), choice, 3))
         == AfterPlanCreate(s, areaId, content, choice.newId).Told(tid)
  {
    hide ValidLines, Apply, From, Alone;
    ComesAndGoes(s, tid);
    var start := Position(s, PlanCreate(areaId, content));
    var done := AfterPlanCreate(s, areaId, content, choice.newId);
    PlanTaskMoves(s.Goto(tid, start.task), tid, choice);
    if areaId !in s.areas.rows || s.areas.rows[areaId].data.values.status == AreaArchived
        || !ValidLines(content.lines) {
      OneStep(start, tid, choice, 3, done);
    } else {
      assert Leads(s, tid, start.task, choice, s, PlanCreateChecked(areaId, content));
      hide Ends, Leads;
      var row := Row(1, Plan(areaId, content, PlanDraft));
      PlanAdds(s, tid, PlanCreateChecked(areaId, content), row, choice);
      PlanIsAdded(start, Position(s, PlanCreateChecked(areaId, content)), row, tid, choice);
    }
  }

  lemma PlanCopyAlone(s: System, tid: nat, id: nat, choice: Choice)
    requires TablesComplete(s) && tid !in s.tasks && choice.newId !in s.plans.rows
    ensures From(s, Alone(tid, PlanCopy(id), choice, 3)) == AfterPlanCopy(s, id, choice.newId).Told(tid)
  {
    hide CopiedPlan, Apply, From, Alone;
    ComesAndGoes(s, tid);
    var start := Position(s, PlanCopy(id));
    PlanTaskMoves(s.Goto(tid, start.task), tid, choice);
    if id !in s.plans.rows {
      OneStep(start, tid, choice, 3, AfterPlanCopy(s, id, choice.newId));
    } else {
      var row := s.plans.rows[id];
      assert Leads(s, tid, start.task, choice, s, PlanCopyRead(id, row));
      hide Ends, Leads;
      PlanAdds(s, tid, PlanCopyRead(id, row), CopiedPlan(row), choice);
      PlanIsAdded(start, Position(s, PlanCopyRead(id, row)), CopiedPlan(row), tid, choice);
    }
  }

  lemma PlanAdds(s: System, tid: nat, task: Task, row: Row<Plan>, choice: Choice)
    requires TablesComplete(s) && tid !in s.tasks && choice.newId !in s.plans.rows
    requires match task
      case PlanCreateChecked(areaId, content) => row == Row(1, Plan(areaId, content, PlanDraft))
      case PlanCopyRead(_, before) => row == CopiedPlan(before)
      case _ => false
    ensures Leads(s, tid, task, choice,
                  s.(plans := s.plans.Insert(choice.newId, row)), Auditing(PlanAdded(choice.newId, row)))
  {
    hide CopiedPlan, Apply;
    var written := s.(plans := s.plans.Insert(choice.newId, row));
    var here := s.Goto(tid, task);
    ComesAndGoes(written, tid);
    assert here.(plans := written.plans) == written.Goto(tid, task);
    PlanTaskMoves(here, tid, choice);
  }

  lemma PlanIsAdded(a: Position, b: Position, row: Row<Plan>, tid: nat, choice: Choice)
    requires a.around == b.around && a.task.IsRequest()
    requires var written := b.around.(plans := b.around.plans.Insert(choice.newId, row));
      && Leads(a.around, tid, a.task, choice, b.around, b.task)
      && Leads(b.around, tid, b.task, choice, written, Auditing(PlanAdded(choice.newId, row)))
    ensures var s := b.around;
      TablesComplete(s) &&
      From(s, Alone(tid, a.task, choice, 3))
        == Answered(PlanReply(row), s.(plans := s.plans.Insert(choice.newId, row),
                                       audits := s.audits + [PlanAdded(choice.newId, row)])).Told(tid)
  {
    hide Apply, From, Alone;
    var written := b.around.(plans := b.around.plans.Insert(choice.newId, row));
    var audit := PlanAdded(choice.newId, row);
    AuditEnds(written, tid, choice, audit);
    LeftAlone([a, b, Position(written, Auditing(audit))], tid, choice, 3,
              Answered(ReplyAfter(audit), written.(audits := written.audits + [audit])));
  }

  // ---------- Imports ----------

  lemma ImportAlone(s: System, tid: nat, request: ImportRequest, choice: Choice)
    requires TablesComplete(s) && tid !in s.tasks && choice.newId !in s.runs.rows && request.source.swath > 0.0
    ensures From(s, Alone(tid, RunImport(request), choice, 4)) == AfterImport(s, request, choice.newId).Told(tid)
  {
    hide CheckImport, ImportedRun, ChecksumTaken, RunTaken, Payload, RunWith, Apply, From, Alone, Leads, Ends;
    var done := AfterImport(s, request, choice.newId);
    var planId := request.source.planId;
    var a := Position(s, RunImport(request));
    ImportChecks(s, tid, request, choice);
    if planId !in s.plans.rows || CheckImport(s.plans.rows[planId].data, request).Some? {
      OneStep(a, tid, choice, 4, done);
    } else {
      var plan := s.plans.rows[planId];
      var b, c := Position(s, RunImportChecked(request, plan)), Position(s, RunImportMissed(request, plan));
      ImportLooksUp(s, tid, request, plan, choice);
      ImportInserts(s, tid, request, plan, choice);
      if ChecksumTaken(s.runs.rows, Payload(request.source)) {
        TwoSteps(a, b, tid, choice, 4, done);
      } else if RunTaken(s.runs.rows, ImportedRun(request)) {
        LeftAlone([a, b, c], tid, choice, 4, done);
      } else {
        var row := Row(1, ImportedRun(request));
        var written := s.(runs := s.runs.Insert(choice.newId, row));
        AuditEnds(written, tid, choice, RunAdded(choice.newId, row));
        LeftAlone([a, b, c, Position(written, Auditing(RunAdded(choice.newId, row)))], tid, choice, 4, done);
      }
    }
  }

  lemma ImportChecks(s: System, tid: nat, request: ImportRequest, choice: Choice)
    requires TablesComplete(s) && tid !in s.tasks && request.source.swath > 0.0
    ensures var planId := request.source.planId;
      if planId !in s.plans.rows || CheckImport(s.plans.rows[planId].data, request).Some? then
        Ends(s, tid, RunImport(request), choice, AfterImport(s, request, choice.newId))
      else
        Leads(s, tid, RunImport(request), choice, s, RunImportChecked(request, s.plans.rows[planId]))
  {
    hide CheckImport, ImportedRun, ChecksumTaken, RunTaken, Payload, RunWith, Apply;
    ComesAndGoes(s, tid);
    RunTaskMoves(s.Goto(tid, RunImport(request)), tid, choice);
  }

  lemma ImportLooksUp(s: System, tid: nat, request: ImportRequest, plan: Row<Plan>, choice: Choice)
    requires TablesComplete(s) && tid !in s.tasks && request.source.swath > 0.0
    ensures var checksum := Payload(request.source);
      if ChecksumTaken(s.runs.rows, checksum) then
        Ends(s, tid, RunImportChecked(request, plan), choice,
             Answered(RunReply(RunWith(s.runs.rows, checksum), true), s))
      else
        Leads(s, tid, RunImportChecked(request, plan), choice, s, RunImportMissed(request, plan))
  {
    hide CheckImport, ImportedRun, ChecksumTaken, RunTaken, Payload, RunWith, Apply;
    ComesAndGoes(s, tid);
    RunTaskMoves(s.Goto(tid, RunImportChecked(request, plan)), tid, choice);
  }

  lemma ImportInserts(s: System, tid: nat, request: ImportRequest, plan: Row<Plan>, choice: Choice)
    requires TablesComplete(s) && tid !in s.tasks && choice.newId !in s.runs.rows && request.source.swath > 0.0
    ensures var row := Row(1, ImportedRun(request));
      if RunTaken(s.runs.rows, row.data) then
        Ends(s, tid, RunImportMissed(request, plan), choice, Answered(Failed(Duplicate), s))
      else
        Leads(s, tid, RunImportMissed(request, plan), choice,
              s.(runs := s.runs.Insert(choice.newId, row)), Auditing(RunAdded(choice.newId, row)))
  {
    hide CheckImport, ImportedRun, ChecksumTaken, RunTaken, Payload, RunWith, Apply;
    ComesAndGoes(s, tid);
    var here := s.Goto(tid, RunImportMissed(request, plan));
    var written := s.(runs := s.runs.Insert(choice.newId, Row(1, ImportedRun(request))));
    ComesAndGoes(written, tid);
    assert here.(runs := written.runs) == written.Goto(tid, here.tasks[tid]);
    RunTaskMoves(here, tid, choice);
  }

  // ---------- Detections ----------

  lemma DetectAlone(s: System, tid: nat, detect: DetectRequest, choice: Choice)
    requires TablesComplete(s) && tid !in s.tasks && choice.newId !in s.gaps.rows
    requires IsAnswer(choice.order, detect.runIds, s.runs.rows)
    ensures From(s, Alone(tid, GapDetect(detect), choice, 6)) == AfterDetect(s, detect, choice).Told(tid)
  {
    hide NoDuplicates, UniqueIds, CheckSources, AllIn, PlanIdsOf, DataOf, RowsOf, HashOf, HashTaken, Outcome, TracksOf,
        ChosenResolution, DetectedGap, GapWith, Apply, From, Alone, Leads, Ends, AfterCheckedDetection;
    var done := AfterDetect(s, detect, choice);
    var a := Position(s, GapDetect(detect));
    DetectReadsArea(s, tid, detect, choice);
    if !(8 <= |detect.key| <= 120) || detect.areaId !in s.areas.rows {
      OneStep(a, tid, choice, 6, done);
    } else {
      var area, runs := s.areas.rows[detect.areaId], RowsOf(s.runs.rows, choice.order);
      var b := Position(s, GapDetectArea(detect, area));
      var c := Position(s, GapDetectRuns(detect, area, choice.order, runs));
      DetectReadsRuns(s, tid, detect, area, choice);
      DetectChecks(s, tid, detect, area, choice);
      if Unsound(s, detect, runs) {
        LeftAlone([a, b, c], tid, choice, 6, done);
      } else {
        SoundMeans(s, detect, runs);
        var plans := RowsOf(s.plans.rows, PlanIdsOf(runs));
        DetectGoesOn([a, b, c], s, tid, detect, area, choice, runs, plans);
      }
    }
  }

  /** The checks between reading the runs and looking up the hash fail. */
  ghost predicate Unsound(s: System, detect: DetectRequest, runs: seq<Row<Run>>) {
    || |runs| != |UniqueIds(detect.runIds)|
    || !AllIn(PlanIdsOf(runs), s.plans.rows)
    || CheckSources(detect.areaId, DataOf(runs), DataOf(RowsOf(s.plans.rows, PlanIdsOf(runs)))).Some?
  }

  lemma SoundMeans(s: System, detect: DetectRequest, runs: seq<Row<Run>>)
    requires !Unsound(s, detect, runs)
    ensures forall id | id in PlanIdsOf(runs) :: id in s.plans.rows
  {
    hide PlanIdsOf, CheckSources, UniqueIds;
  }

  lemma DetectReadsArea(s: System, tid: nat, detect: DetectRequest, choice: Choice)
    requires TablesComplete(s) && tid !in s.tasks && IsAnswer(choice.order, detect.runIds, s.runs.rows)
    ensures
      if !(8 <= |detect.key| <= 120) || detect.areaId !in s.areas.rows then
        Ends(s, tid, GapDetect(detect), choice, AfterDetect(s, detect, choice))
      else
        Leads(s, tid, GapDetect(detect), choice, s, GapDetectArea(detect, s.areas.rows[detect.areaId]))
  {
    hide Apply, NoDuplicates, UniqueIds, CheckSources, AllIn, PlanIdsOf, DataOf, RowsOf, AfterCheckedDetection;
    ComesAndGoes(s, tid);
    GapTaskMoves(s.Goto(tid, GapDetect(detect)), tid, choice);
  }

  lemma DetectReadsRuns(s: System, tid: nat, detect: DetectRequest, area: Row<Area>, choice: Choice)
    requires TablesComplete(s) && tid !in s.tasks && IsAnswer(choice.order, detect.runIds, s.runs.rows)
    ensures Leads(s, tid, GapDetectArea(detect, area), choice,
                  s, GapDetectRuns(detect, area, choice.order, RowsOf(s.runs.rows, choice.order)))
  {
    hide Apply, NoDuplicates, RowsOf;
    ComesAndGoes(s, tid);
    GapTaskMoves(s.Goto(tid, GapDetectArea(detect, area)), tid, choice);
  }

  lemma DetectChecks(s: System, tid: nat, detect: DetectRequest, area: Row<Area>, choice: Choice)
    requires TablesComplete(s) && tid !in s.tasks && IsAnswer(choice.order, detect.runIds, s.runs.rows)
    requires 8 <= |detect.key| <= 120 && detect.areaId in s.areas.rows
    ensures var runs := RowsOf(s.runs.rows, choice.order);
      if Unsound(s, detect, runs) then
        Ends(s, tid, GapDetectRuns(detect, area, choice.order, runs), choice, AfterDetect(s, detect, choice))
      else
        AllIn(PlanIdsOf(runs), s.plans.rows) &&
        Leads(s, tid, GapDetectRuns(detect, area, choice.order, runs), choice,
              s, GapDetectHashed(detect, area, choice.order, runs, RowsOf(s.plans.rows, PlanIdsOf(runs))))
  {
    hide Apply, NoDuplicates, UniqueIds, CheckSources, PlanIdsOf, DataOf, RowsOf, AfterCheckedDetection;
    ComesAndGoes(s, tid);
    GapTaskMoves(s.Goto(tid, GapDetectRuns(detect, area, choice.order, RowsOf(s.runs.rows, choice.order))), tid,
                 choice);
  }

  lemma DetectGoesOn(way: seq<Position>, s: System, tid: nat, detect: DetectRequest, area: Row<Area>, choice: Choice,
                     runs: seq<Row<Run>>, plans: seq<Row<Plan>>)
    requires TablesComplete(s) && tid !in s.tasks && choice.newId !in s.gaps.rows && |choice.order| == |runs|
    requires |way| == 3 && IsWay(way, tid, choice) && way[0] == Position(s, GapDetect(detect)) && way[2].around == s
    requires Leads(s, tid, way[2].task, choice, s, GapDetectHashed(detect, area, choice.order, runs, plans))
    ensures From(s, Alone(tid, GapDetect(detect), choice, 6))
         == AfterCheckedDetection(s, detect, area.data, choice.order, DataOf(runs), choice.newId).Told(tid)
  {
    hide HashOf, HashTaken, Outcome, TracksOf, ChosenResolution, DetectedGap, GapWith, DataOf, Apply, From, Alone,
        Leads, Ends;
    var done := AfterCheckedDetection(s, detect, area.data, choice.order, DataOf(runs), choice.newId);
    var d := Position(s, GapDetectHashed(detect, area, choice.order, runs, plans));
    var e := Position(s, GapDetectMissed(detect, area, choice.order, runs, plans));
    DetectLooksUp(s, tid, detect, area, choice, runs, plans);
    var hash := HashOf(detect, area.data, DataOf(runs));
    var outcome := Outcome(area.data.values.boundary, TracksOf(choice.order, DataOf(runs)),
                           ChosenResolution(detect, area.data));
    if HashTaken(s.gaps.rows, hash) {
      LeftAlone(way + [d], tid, choice, 6, done);
    } else if outcome.Err? {
      DetectInserts(s, tid, detect, area, choice, runs, plans);
      LeftAlone(way + [d, e], tid, choice, 6, done);
    } else {
      var row := Row(1, DetectedGap(detect, area.data, hash, outcome.value));
      var written := s.(gaps := s.gaps.Insert(choice.newId, row));
      DetectInserts(s, tid, detect, area, choice, runs, plans);
      AuditEnds(written, tid, choice, GapAdded(choice.newId, row));
      LeftAlone(way + [d, e, Position(written, Auditing(GapAdded(choice.newId, row)))], tid, choice, 6, done);
    }
  }

  lemma DetectLooksUp(s: System, tid: nat, detect: DetectRequest, area: Row<Area>, choice: Choice,
                      runs: seq<Row<Run>>, plans: seq<Row<Plan>>)
    requires TablesComplete(s) && tid !in s.tasks
    ensures var hash := HashOf(detect, area.data, DataOf(runs));
      if HashTaken(s.gaps.rows, hash) then
        Ends(s, tid, GapDetectHashed(detect, area, choice.order, runs, plans), choice,
             Answered(GapReply(GapWith(s.gaps.rows, hash), true), s))
      else
        Leads(s, tid, GapDetectHashed(detect, area, choice.order, runs, plans), choice,
              s, GapDetectMissed(detect, area, choice.order, runs, plans))
  {
    hide HashOf, HashTaken, GapWith, DataOf, Apply;
    ComesAndGoes(s, tid);
    GapTaskMoves(s.Goto(tid, GapDetectHashed(detect, area, choice.order, runs, plans)), tid, choice);
  }

  lemma DetectInserts(s: System, tid: nat, detect: DetectRequest, area: Row<Area>, choice: Choice,
                      runs: seq<Row<Run>>, plans: seq<Row<Plan>>)
    requires TablesComplete(s) && tid !in s.tasks && choice.newId !in s.gaps.rows && |choice.order| == |runs|
    requires !HashTaken(s.gaps.rows, HashOf(detect, area.data, DataOf(runs)))
    ensures var hash := HashOf(detect, area.data, DataOf(runs));
      var outcome := Outcome(area.data.values.boundary, TracksOf(choice.order, DataOf(runs)),
                             ChosenResolution(detect, area.data));
      if outcome.Err? then
        Ends(s, tid, GapDetectMissed(detect, area, choice.order, runs, plans), choice,
             Answered(Failed(CoverageInvalid), s))
      else
        var row := Row(1, DetectedGap(detect, area.data, hash, outcome.value));
        Leads(s, tid, GapDetectMissed(detect, area, choice.order, runs, plans), choice,
              s.(gaps := s.gaps.Insert(choice.newId, row)), Auditing(GapAdded(choice.newId, row)))
  {
    hide HashOf, HashTaken, Outcome, TracksOf, ChosenResolution, DetectedGap, GapWith, DataOf, CheckSources, UniqueIds,
        IsAnswer, AllIn, PlanIdsOf, RowsOf, CheckGapMove, MovedGap, Annotated, Apply;
    ComesAndGoes(s, tid);
    var here := s.Goto(tid, GapDetectMissed(detect, area, choice.order, runs, plans));
    GapTaskMoves(here, tid, choice);
    var outcome := Outcome(area.data.values.boundary, TracksOf(choice.order, DataOf(runs)),
                           ChosenResolution(detect, area.data));
    if outcome.Ok? {
      var row := Row(1, DetectedGap(detect, area.data, HashOf(detect, area.data, DataOf(runs)), outcome.value));
      var written := s.(gaps := s.gaps.Insert(choice.newId, row));
      ComesAndGoes(written, tid);
      assert here.(gaps := written.gaps) == written.Goto(tid, here.tasks[tid]);
    }
  }
}
