/**
 The survey service as a concurrent system. A request is a task that performs one database statement at a time;
 the steps of different tasks interleave in any order, and a task may stop for good after any step.
 */
module Workflow {
  import opened Collections
  import opened Wrappers
  import opened Plane
  import opened Coverage
  import opened States
  import opened Checksums
  import opened Tables
  import opened Records

  /**
   A change of a row as its audit event describes it: the row that the request had read, the row that it read again
   after its write, and for areas and plans the version that the request expected.
   */
  datatype Audit =
    | AreaAdded(id: nat, area: Row<Area>)
    | AreaChanged(id: nat, areaBefore: Row<Area>, areaAfter: Row<Area>, expected: nat)
    | PlanAdded(id: nat, plan: Row<Plan>)
    | PlanChanged(id: nat, planBefore: Row<Plan>, planAfter: Row<Plan>, expected: nat)
    | RunAdded(id: nat, run: Row<Run>)
    | RunChanged(id: nat, runBefore: Row<Run>, runAfter: Row<Run>)
    | GapAdded(id: nat, gap: Row<Gap>)
    | GapChanged(id: nat, gapBefore: Row<Gap>, gapAfter: Row<Gap>)

  /** Where a request stands, with everything it has read so far. */
  datatype Task =
    | AreaCreate(area: Area)
    | AreaUpdate(id: nat, version: nat, values: AreaValues)
    | AreaUpdateChecked(id: nat, version: nat, values: AreaValues, areaBefore: Row<Area>)
    | AreaWritten(id: nat, areaBefore: Row<Area>, expected: nat)
    | PlanCreate(areaId: nat, content: PlanContent)
    | PlanCreateChecked(areaId: nat, content: PlanContent)
    | PlanUpdate(id: nat, version: nat, content: PlanContent)
    | PlanUpdateChecked(id: nat, version: nat, content: PlanContent, planBefore: Row<Plan>)
    | PlanLock(id: nat, version: nat, planTarget: PlanState)
    | PlanLockChecked(id: nat, version: nat, planBefore: Row<Plan>)
    | PlanWritten(id: nat, planBefore: Row<Plan>, expected: nat)
    | PlanCopy(id: nat)
    | PlanCopyRead(id: nat, planBefore: Row<Plan>)
    | RunImport(request: ImportRequest)
    | RunImportChecked(request: ImportRequest, plan: Row<Plan>)
    | RunImportMissed(request: ImportRequest, plan: Row<Plan>)
    | RunMove(id: nat, version: nat, runTarget: RunState, reason: string)
    | RunMoveChecked(id: nat, version: nat, runTarget: RunState, runBefore: Row<Run>)
    | RunWritten(id: nat, runBefore: Row<Run>)
    | GapDetect(detect: DetectRequest)
    | GapDetectArea(detect: DetectRequest, area0: Row<Area>)
    | GapDetectRuns(detect: DetectRequest, area0: Row<Area>, ids: seq<nat>, runs: seq<Row<Run>>)
    | GapDetectHashed(detect: DetectRequest, area0: Row<Area>, ids: seq<nat>, runs: seq<Row<Run>>,
                      plans: seq<Row<Plan>>)
    | GapDetectMissed(detect: DetectRequest, area0: Row<Area>, ids: seq<nat>, runs: seq<Row<Run>>,
                      plans: seq<Row<Plan>>)
    | GapMove(id: nat, version: nat, gapTarget: GapState, note: string)
    | GapMoveChecked(id: nat, version: nat, gapTarget: GapState, note: string, gapBefore: Row<Gap>)
    | GapWritten(id: nat, gapBefore: Row<Gap>)
    | Auditing(audit: Audit)
  {
    /** A request as it arrives: nothing read yet, and accepted by the request binding. */
    predicate IsRequest() {
      match this
      case AreaCreate(_) => true
      case AreaUpdate(_, _, _) => true
      case PlanCreate(_, _) => true
      case PlanUpdate(_, _, _) => true
      case PlanLock(_, _, _) => true
      case PlanCopy(_) => true
      case RunImport(request) => request.source.swath > 0.0
      case RunMove(_, _, _, _) => true
      case GapDetect(_) => true
      case GapMove(_, _, _, _) => true
      case _ => false
    }
  }

  /** The answer to a request: an error or a row, and for imports and detections whether it was there before. */
  datatype Reply =
    | Failed(error: ServiceError)
    | AreaReply(area: Row<Area>)
    | PlanReply(plan: Row<Plan>)
    | RunReply(run: Row<Run>, existing: bool)
    | GapReply(gap: Row<Gap>, existing: bool)

  /** A successful write is answered, after its audit event, with the row that the event shows. */
  function ReplyAfter(audit: Audit): Reply {
    match audit
    case AreaAdded(_, row) => AreaReply(row)
    case AreaChanged(_, _, row, _) => AreaReply(row)
    case PlanAdded(_, row) => PlanReply(row)
    case PlanChanged(_, _, row, _) => PlanReply(row)
    case RunAdded(_, row) => RunReply(row, false)
    case RunChanged(_, _, row) => RunReply(row, false)
    case GapAdded(_, row) => GapReply(row, false)
    case GapChanged(_, _, row) => GapReply(row, false)
  }

  datatype System = System(
    areas: Table<Area>,
    plans: Table<Plan>,
    runs: Table<Run>,
    gaps: Table<Gap>,
    audits: seq<Audit>,
    tasks: map<nat, Task>,
    answers: map<nat, Reply>)
  {
    function Goto(tid: nat, task: Task): System {
      this.(tasks := tasks[tid := task])
    }

    /** The request has been answered. */
    function Done(tid: nat, reply: Reply): System {
      this.(tasks := tasks - {tid}, answers := answers[tid := reply])
    }

    /** The request has stopped without an answer. */
    function Dropped(tid: nat): System {
      this.(tasks := tasks - {tid})
    }
  }

  function Start(): System {
    System(EmptyTable(), EmptyTable(), EmptyTable(), EmptyTable(), [], map[], map[])
  }

  /** What the database decides: the id of an inserted row, and the order in which a query returns rows. */
  datatype Choice = Choice(newId: nat, order: seq<nat>)

  datatype Event =
    | Arrive(tid: nat, task: Task)
    | Advance(tid: nat, choice: Choice)
    | Abandon(tid: nat)

  // ---------- Unique indexes ----------

  ghost predicate CodeTaken(areas: map<nat, Row<Area>>, code: string) {
    exists id :: id in areas && areas[id].data.code == code
  }

  ghost predicate RunTaken(runs: map<nat, Row<Run>>, run: Run) {
    exists id :: id in runs && (runs[id].data.code == run.code || runs[id].data.checksum == run.checksum)
  }

  ghost predicate ChecksumTaken(runs: map<nat, Row<Run>>, checksum: string) {
    exists id :: id in runs && runs[id].data.checksum == checksum
  }

  ghost predicate HashTaken(gaps: map<nat, Row<Gap>>, hash: InputHash) {
    exists id :: id in gaps && gaps[id].data.hash == hash
  }

  /** The run that a lookup by checksum finds. */
  ghost function RunWith(runs: map<nat, Row<Run>>, checksum: string): Row<Run>
    requires ChecksumTaken(runs, checksum)
  {
    var id :| id in runs && runs[id].data.checksum == checksum;
    runs[id]
  }

  /** The gap that a lookup by input hash finds. */
  ghost function GapWith(gaps: map<nat, Row<Gap>>, hash: InputHash): Row<Gap>
    requires HashTaken(gaps, hash)
  {
    var id :| id in gaps && gaps[id].data.hash == hash;
    gaps[id]
  }

  // ---------- Steps ----------

  /** Every row has its history. */
  ghost predicate TablesComplete(s: System) {
    && s.areas.edits.Keys == s.areas.rows.Keys
    && s.plans.edits.Keys == s.plans.rows.Keys
    && s.runs.edits.Keys == s.runs.rows.Keys
    && s.gaps.edits.Keys == s.gaps.rows.Keys
  }

  ghost function StepArea(s: System, tid: nat, task: Task, choice: Choice): (later: System)
    requires TablesComplete(s)
    ensures TablesComplete(later)
  {
    match task
    case AreaCreate(area) =>
      if !ValidBoundary(area.values.boundary) then s.Done(tid, Failed(AreaGeometryInvalid))
      else if CodeTaken(s.areas.rows, area.code) then s.Done(tid, Failed(Duplicate))
      else if choice.newId in s.areas.rows then s
      else
        var row := Row(1, area.(values := area.values.(status := AreaDraft)));
        s.(areas := s.areas.Insert(choice.newId, row)).Goto(tid, Auditing(AreaAdded(choice.newId, row)))
    case AreaUpdate(id, version, values) =>
      if id !in s.areas.rows then s.Done(tid, Failed(NotFound))
      else if CheckAreaUpdate(s.areas.rows[id].data, values).Some? then
        s.Done(tid, Failed(CheckAreaUpdate(s.areas.rows[id].data, values).value))
      else s.Goto(tid, AreaUpdateChecked(id, version, values, s.areas.rows[id]))
    case AreaUpdateChecked(id, version, values, before) =>
      if id !in s.areas.rows || UpdatedArea(s.areas.rows[id], version, values).None? then
          s.Done(tid, Failed(VersionConflict))
      else
        var data := UpdatedArea(s.areas.rows[id], version, values).value;
        s.(areas := s.areas.Commit(id, data, "")).Goto(tid, AreaWritten(id, before, version))
    case AreaWritten(id, before, expected) =>
      if id !in s.areas.rows then s.Done(tid, Failed(NotFound))
      else s.Goto(tid, Auditing(AreaChanged(id, before, s.areas.rows[id], expected)))
    case _ => s
  }

  ghost function StepPlan(s: System, tid: nat, task: Task, choice: Choice): (later: System)
    requires TablesComplete(s)
    ensures TablesComplete(later)
  {
    match task
    case PlanCreate(areaId, content) =>
      if areaId !in s.areas.rows then s.Done(tid, Failed(NotFound))
      else if s.areas.rows[areaId].data.values.status == AreaArchived then s.Done(tid, Failed(AreaClosed))
      else if !ValidLines(content.lines) then s.Done(tid, Failed(LinesInvalid))
      else s.Goto(tid, PlanCreateChecked(areaId, content))
    case PlanCreateChecked(areaId, content) =>
      if choice.newId in s.plans.rows then s
      else
        var row := Row(1, Plan(areaId, content, PlanDraft));
        s.(plans := s.plans.Insert(choice.newId, row)).Goto(tid, Auditing(PlanAdded(choice.newId, row)))
    case PlanUpdate(id, version, content) =>
      if id !in s.plans.rows then s.Done(tid, Failed(NotFound))
      else if CheckPlanUpdate(s.plans.rows[id].data, content).Some? then
          s.Done(tid, Failed(CheckPlanUpdate(s.plans.rows[id].data, content).value))
      else s.Goto(tid, PlanUpdateChecked(id, version, content, s.plans.rows[id]))
    case PlanUpdateChecked(id, version, content, before) =>
      if id !in s.plans.rows || UpdatedPlan(s.plans.rows[id], version, content).None? then
          s.Done(tid, Failed(VersionConflict))
      else
        var data := UpdatedPlan(s.plans.rows[id], version, content).value;
        s.(plans := s.plans.Commit(id, data, "")).Goto(tid, PlanWritten(id, before, version))
    case PlanLock(id, version, target) =>
      if id !in s.plans.rows then s.Done(tid, Failed(NotFound))
      else if CheckPlanLock(s.plans.rows[id].data, target).Some? then
          s.Done(tid, Failed(CheckPlanLock(s.plans.rows[id].data, target).value))
      else s.Goto(tid, PlanLockChecked(id, version, s.plans.rows[id]))
    case PlanLockChecked(id, version, before) =>
      if id !in s.plans.rows || MovedPlan(s.plans.rows[id], version, PlanDraft, PlanLocked).None? then
        s.Done(tid, Failed(VersionConflict))
      else
        var data := MovedPlan(s.plans.rows[id], version, PlanDraft, PlanLocked).value;
        s.(plans := s.plans.Commit(id, data, "")).Goto(tid, PlanWritten(id, before, version))
    case PlanWritten(id, before, expected) =>
      if id !in s.plans.rows then s.Done(tid, Failed(NotFound))
      else s.Goto(tid, Auditing(PlanChanged(id, before, s.plans.rows[id], expected)))
    case PlanCopy(id) =>
      if id !in s.plans.rows then s.Done(tid, Failed(NotFound))
      else s.Goto(tid, PlanCopyRead(id, s.plans.rows[id]))
    case PlanCopyRead(id, before) =>
      if choice.newId in s.plans.rows then s
      else
        var row := CopiedPlan(before);
        s.(plans := s.plans.Insert(choice.newId, row)).Goto(tid, Auditing(PlanAdded(choice.newId, row)))
    case _ => s
  }

  ghost function StepRun(s: System, tid: nat, task: Task, choice: Choice): (later: System)
    requires TablesComplete(s)
    ensures TablesComplete(later)
  {
    match task
    case RunImport(request) =>
      var planId := request.source.planId;
      if planId !in s.plans.rows then s.Done(tid, Failed(NotFound))
      else if CheckImport(s.plans.rows[planId].data, request).Some? then
        s.Done(tid, Failed(CheckImport(s.plans.rows[planId].data, request).value))
      else s.Goto(tid, RunImportChecked(request, s.plans.rows[planId]))
    case RunImportChecked(request, plan) =>
      if request.source.swath <= 0.0 then s.Done(tid, Failed(SwathInvalid))
      else if ChecksumTaken(s.runs.rows, Payload(request.source)) then
        s.Done(tid, RunReply(RunWith(s.runs.rows, Payload(request.source)), true))
      else s.Goto(tid, RunImportMissed(request, plan))
    case RunImportMissed(request, plan) =>
      if request.source.swath <= 0.0 then s.Done(tid, Failed(SwathInvalid))
      else if RunTaken(s.runs.rows, ImportedRun(request)) then s.Done(tid, Failed(Duplicate))
      else if choice.newId in s.runs.rows then s
      else
        var row := Row(1, ImportedRun(request));
        s.(runs := s.runs.Insert(choice.newId, row)).Goto(tid, Auditing(RunAdded(choice.newId, row)))
    case RunMove(id, version, target, reason) =>
      if id !in s.runs.rows then s.Done(tid, Failed(NotFound))
      else if CheckRunMove(s.runs.rows[id].data, target, reason).Some? then
        s.Done(tid, Failed(CheckRunMove(s.runs.rows[id].data, target, reason).value))
      else s.Goto(tid, RunMoveChecked(id, version, target, s.runs.rows[id]))
    case RunMoveChecked(id, version, target, before) =>
      if id !in s.runs.rows || MovedRun(s.runs.rows[id], version, before.data.state, target).None? then
        s.Done(tid, Failed(VersionConflict))
      else
        var data := MovedRun(s.runs.rows[id], version, before.data.state, target).value;
        s.(runs := s.runs.Commit(id, data, "")).Goto(tid, RunWritten(id, before))
    case RunWritten(id, before) =>
      if id !in s.runs.rows then s.Done(tid, Failed(NotFound))
      else s.Goto(tid, Auditing(RunChanged(id, before, s.runs.rows[id])))
    case _ => s
  }

  /** The ids of a query `id IN (...)`, in the order in which the database returns the rows that exist. */
  ghost predicate IsAnswer<R>(order: seq<nat>, wanted: seq<nat>, rows: map<nat, Row<R>>) {
    && NoDuplicates(order)
    && forall id :: id in order <==> id in wanted && id in rows
  }

  function RowsOf<R>(rows: map<nat, Row<R>>, ids: seq<nat>): (r: seq<Row<R>>)
    requires forall id | id in ids :: id in rows
    ensures |r| == |ids|
    ensures forall i | 0 <= i < |ids| :: r[i] == rows[ids[i]]
  {
    if ids == [] then [] else RowsOf(rows, ids[..|ids| - 1]) + [rows[ids[|ids| - 1]]]
  }

  function DataOf<R>(rows: seq<Row<R>>): (d: seq<R>)
    ensures |d| == |rows|
    ensures forall i | 0 <= i < |rows| :: d[i] == rows[i].data
  {
    if rows == [] then [] else DataOf(rows[..|rows| - 1]) + [rows[|rows| - 1].data]
  }

  function PlanIdsOf(runs: seq<Row<Run>>): (ids: seq<nat>)
    ensures |ids| == |runs|
    ensures forall i | 0 <= i < |runs| :: ids[i] == runs[i].data.planId
  {
    if runs == [] then [] else PlanIdsOf(runs[..|runs| - 1]) + [runs[|runs| - 1].data.planId]
  }

  ghost predicate AllIn<R>(ids: seq<nat>, rows: map<nat, Row<R>>) {
    forall id | id in ids :: id in rows
  }

  ghost function StepGap(s: System, tid: nat, task: Task, choice: Choice): (later: System)
    requires TablesComplete(s)
    ensures TablesComplete(later)
  {
    match task
    case GapDetect(request) =>
      if !(8 <= |request.key| <= 120) then s.Done(tid, Failed(KeyRequired))
      else if request.areaId !in s.areas.rows then s.Done(tid, Failed(NotFound))
      else s.Goto(tid, GapDetectArea(request, s.areas.rows[request.areaId]))
    case GapDetectArea(request, area) =>
      if !IsAnswer(choice.order, request.runIds, s.runs.rows) then s
      else s.Goto(tid, GapDetectRuns(request, area, choice.order, RowsOf(s.runs.rows, choice.order)))
    case GapDetectRuns(request, area, ids, runs) =>
      if |runs| != |UniqueIds(request.runIds)| then s.Done(tid, Failed(RunSetIncomplete))
      else if !AllIn(PlanIdsOf(runs), s.plans.rows) then s.Done(tid, Failed(RunAreaMismatch))
      else
        var plans := RowsOf(s.plans.rows, PlanIdsOf(runs));
        var problem := CheckSources(request.areaId, DataOf(runs), DataOf(plans));
        if problem.Some? then s.Done(tid, Failed(problem.value))
        else s.Goto(tid, GapDetectHashed(request, area, ids, runs, plans))
    case GapDetectHashed(request, area, ids, runs, plans) =>
      var hash := HashOf(request, area.data, DataOf(runs));
      if HashTaken(s.gaps.rows, hash) then s.Done(tid, GapReply(GapWith(s.gaps.rows, hash), true))
      else s.Goto(tid, GapDetectMissed(request, area, ids, runs, plans))
    case GapDetectMissed(request, area, ids, runs, plans) =>
      var hash := HashOf(request, area.data, DataOf(runs));
      if |ids| != |runs| then s.Done(tid, Failed(RunSetIncomplete))
      else if HashTaken(s.gaps.rows, hash) then s.Done(tid, Failed(Duplicate))
      else if choice.newId in s.gaps.rows then s
      else
        var outcome := Outcome(area.data.values.boundary, TracksOf(ids, DataOf(runs)),
                               ChosenResolution(request, area.data));
        if outcome.Err? then s.Done(tid, Failed(CoverageInvalid))
        else
          var row := Row(1, DetectedGap(request, area.data, hash, outcome.value));
          s.(gaps := s.gaps.Insert(choice.newId, row)).Goto(tid, Auditing(GapAdded(choice.newId, row)))
    case GapMove(id, version, target, note) =>
      if id !in s.gaps.rows then s.Done(tid, Failed(NotFound))
      else if CheckGapMove(s.gaps.rows[id].data, target).Some? then
        s.Done(tid, Failed(CheckGapMove(s.gaps.rows[id].data, target).value))
      else s.Goto(tid, GapMoveChecked(id, version, target, note, s.gaps.rows[id]))
    case GapMoveChecked(id, version, target, note, before) =>
      var explanation := Annotated(before.data.explanation, note);
      if id !in s.gaps.rows || MovedGap(s.gaps.rows[id], version, before.data.state, target, explanation).None? then
        s.Done(tid, Failed(VersionConflict))
      else
        var data := MovedGap(s.gaps.rows[id], version, before.data.state, target, explanation).value;
        s.(gaps := s.gaps.Commit(id, data, note)).Goto(tid, GapWritten(id, before))
    case GapWritten(id, before) =>
      if id !in s.gaps.rows then s.Done(tid, Failed(NotFound))
      else s.Goto(tid, Auditing(GapChanged(id, before, s.gaps.rows[id])))
    case _ => s
  }

  /** One database statement of one task. */
  ghost function Step(s: System, tid: nat, choice: Choice): (later: System)
    requires TablesComplete(s)
    requires tid in s.tasks
    ensures TablesComplete(later)
  {
    match s.tasks[tid]
    case Auditing(audit) => s.(audits := s.audits + [audit]).Done(tid, ReplyAfter(audit))
    case AreaCreate(_) => StepArea(s, tid, s.tasks[tid], choice)
    case AreaUpdate(_, _, _) => StepArea(s, tid, s.tasks[tid], choice)
    case AreaUpdateChecked(_, _, _, _) => StepArea(s, tid, s.tasks[tid], choice)
    case AreaWritten(_, _, _) => StepArea(s, tid, s.tasks[tid], choice)
    case PlanCreate(_, _) => StepPlan(s, tid, s.tasks[tid], choice)
    case PlanCreateChecked(_, _) => StepPlan(s, tid, s.tasks[tid], choice)
    case PlanUpdate(_, _, _) => StepPlan(s, tid, s.tasks[tid], choice)
    case PlanUpdateChecked(_, _, _, _) => StepPlan(s, tid, s.tasks[tid], choice)
    case PlanLock(_, _, _) => StepPlan(s, tid, s.tasks[tid], choice)
    case PlanLockChecked(_, _, _) => StepPlan(s, tid, s.tasks[tid], choice)
    case PlanWritten(_, _, _) => StepPlan(s, tid, s.tasks[tid], choice)
    case PlanCopy(_) => StepPlan(s, tid, s.tasks[tid], choice)
    case PlanCopyRead(_, _) => StepPlan(s, tid, s.tasks[tid], choice)
    case RunImport(_) => StepRun(s, tid, s.tasks[tid], choice)
    case RunImportChecked(_, _) => StepRun(s, tid, s.tasks[tid], choice)
    case RunImportMissed(_, _) => StepRun(s, tid, s.tasks[tid], choice)
    case RunMove(_, _, _, _) => StepRun(s, tid, s.tasks[tid], choice)
    case RunMoveChecked(_, _, _, _) => StepRun(s, tid, s.tasks[tid], choice)
    case RunWritten(_, _) => StepRun(s, tid, s.tasks[tid], choice)
    case _ => StepGap(s, tid, s.tasks[tid], choice)
  }

  ghost function Apply(s: System, e: Event): (later: System)
    requires TablesComplete(s)
    ensures TablesComplete(later)
  {
    match e
    case Arrive(tid, task) => if tid in s.tasks || !task.IsRequest() then s else s.Goto(tid, task)
    case Advance(tid, choice) => if tid in s.tasks then Step(s, tid, choice) else s
    case Abandon(tid) => s.Dropped(tid)
  }
}
