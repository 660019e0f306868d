/**
 What each request does when it has the system to itself, in one function; and that running the request's task
 step by step, undisturbed, does exactly that while all other tasks wait.
 */
module Requests {
  import opened Wrappers
  import opened Coverage
  import opened States
  import opened Checksums
  import opened Tables
  import opened Records
  import opened Workflow
  import opened Invariant
  import opened Reachability
  import opened Overtaking

  /** The answer to a request and the state it leaves, before the answer is noted. */
  datatype Answered = Answered(reply: Reply, state: System) {
    function Told(tid: nat): System {
      state.(answers := state.answers[tid := reply])
    }
  }

  // ---------- What requests do ----------

  ghost function AfterAreaUpdate(s: System, id: nat, version: nat, values: AreaValues): Answered
    requires TablesComplete(s)
  {
    if id !in s.areas.rows then Answered(Failed(NotFound), s)
    else
      var before := s.areas.rows[id];
      var problem := CheckAreaUpdate(before.data, values);
      var data := UpdatedArea(before, version, values);
      if problem.Some? then Answered(Failed(problem.value), s)
      else if data.None? then Answered(Failed(VersionConflict), s)
      else
        var after := Row(before.version + 1, data.value);
        Answered(AreaReply(after),
                 s.(areas := s.areas.Commit(id, data.value, ""),
                    audits := s.audits + [AreaChanged(id, before, after, version)]))
  }

  ghost function AfterPlanUpdate(s: System, id: nat, version: nat, content: PlanContent): Answered
    requires TablesComplete(s)
  {
    if id !in s.plans.rows then Answered(Failed(NotFound), s)
    else
      var before := s.plans.rows[id];
      var problem := CheckPlanUpdate(before.data, content);
      var data := UpdatedPlan(before, version, content);
      if problem.Some? then Answered(Failed(problem.value), s)
      else if data.None? then Answered(Failed(VersionConflict), s)
      else
        var after := Row(before.version + 1, data.value);
        Answered(PlanReply(after),
                 s.(plans := s.plans.Commit(id, data.value, ""),
                    audits := s.audits + [PlanChanged(id, before, after, version)]))
  }

  ghost function AfterPlanLock(s: System, id: nat, version: nat, target: PlanState): Answered
    requires TablesComplete(s)
  {
    if id !in s.plans.rows then Answered(Failed(NotFound), s)
    else
      var before := s.plans.rows[id];
      var problem := CheckPlanLock(before.data, target);
      var data := MovedPlan(before, version, PlanDraft, PlanLocked);
      if problem.Some? then Answered(Failed(problem.value), s)
      else if data.None? then Answered(Failed(VersionConflict), s)
      else
        var after := Row(before.version + 1, data.value);
        Answered(PlanReply(after),
                 s.(plans := s.plans.Commit(id, data.value, ""),
                    audits := s.audits + [PlanChanged(id, before, after, version)]))
  }

  ghost function AfterPlanCopy(s: System, id: nat, newId: nat): Answered
    requires TablesComplete(s)
  {
    if id !in s.plans.rows then Answered(Failed(NotFound), s)
    else
      var copy := CopiedPlan(s.plans.rows[id]);
      Answered(PlanReply(copy), s.(plans := s.plans.Insert(newId, copy), audits := s.audits + [PlanAdded(newId, copy)]))
  }

  ghost function AfterRunMove(s: System, id: nat, version: nat, target: RunState, reason: string): Answered
    requires TablesComplete(s)
  {
    if id !in s.runs.rows then Answered(Failed(NotFound), s)
    else
      var before := s.runs.rows[id];
      var problem := CheckRunMove(before.data, target, reason);
      var data := MovedRun(before, version, before.data.state, target);
      if problem.Some? then Answered(Failed(problem.value), s)
      else if data.None? then Answered(Failed(VersionConflict), s)
      else
        var after := Row(before.version + 1, data.value);
        Answered(RunReply(after, false),
                 s.(runs := s.runs.Commit(id, data.value, ""), audits := s.audits + [RunChanged(id, before, after)]))
  }

  ghost function AfterGapMove(s: System, id: nat, version: nat, target: GapState, note: string): Answered
    requires TablesComplete(s)
  {
    if id !in s.gaps.rows then Answered(Failed(NotFound), s)
    else
      var before := s.gaps.rows[id];
      var problem := CheckGapMove(before.data, target);
      var data := MovedGap(before, version, before.data.state, target, Annotated(before.data.explanation, note));
      if problem.Some? then Answered(Failed(problem.value), s)
      else if data.None? then Answered(Failed(VersionConflict), s)
      else
        var after := Row(before.version + 1, data.value);
        Answered(GapReply(after, false),
                 s.(gaps := s.gaps.Commit(id, data.value, note), audits := s.audits + [GapChanged(id, before, after)]))
  }

  ghost function AfterAreaCreate(s: System, area: Area, newId: nat): Answered
    requires TablesComplete(s)
  {
    if !ValidBoundary(area.values.boundary) then Answered(Failed(AreaGeometryInvalid), s)
    else if CodeTaken(s.areas.rows, area.code) then Answered(Failed(Duplicate), s)
    else
      var row := Row(1, area.(values := area.values.(status := AreaDraft)));
      Answered(AreaReply(row), s.(areas := s.areas.Insert(newId, row), audits := s.audits + [AreaAdded(newId, row)]))
  }

  ghost function AfterPlanCreate(s: System, areaId: nat, content: PlanContent, newId: nat): Answered
    requires TablesComplete(s)
  {
    if areaId !in s.areas.rows then Answered(Failed(NotFound), s)
    else if s.areas.rows[areaId].data.values.status == AreaArchived then Answered(Failed(AreaClosed), s)
    else if !ValidLines(content.lines) then Answered(Failed(LinesInvalid), s)
    else
      var row := Row(1, Plan(areaId, content, PlanDraft));
      Answered(PlanReply(row), s.(plans := s.plans.Insert(newId, row), audits := s.audits + [PlanAdded(newId, row)]))
  }

  /** An import answers with the run of the same checksum, if there is one, and otherwise adds one. */
  ghost function AfterImport(s: System, request: ImportRequest, newId: nat): Answered
    requires TablesComplete(s) && request.source.swath > 0.0
  {
    var planId := request.source.planId;
    if planId !in s.plans.rows then Answered(Failed(NotFound), s)
    else
      var problem := CheckImport(s.plans.rows[planId].data, request);
      var row := Row(1, ImportedRun(request));
      if problem.Some? then Answered(Failed(problem.value), s)
      else if ChecksumTaken(s.runs.rows, Payload(request.source)) then
        Answered(RunReply(RunWith(s.runs.rows, Payload(request.source)), true), s)
      else if RunTaken(s.runs.rows, row.data) then Answered(Failed(Duplicate), s)
      else
        Answered(RunReply(row, false),
                 s.(runs := s.runs.Insert(newId, row), audits := s.audits + [RunAdded(newId, row)]))
  }

  /** A detection whose checks pass, from the rows it has read to the calculation. */
  ghost function AfterCheckedDetection(s: System, detect: DetectRequest, area: Area, ids: seq<nat>, runs: seq<Run>,
                                       newId: nat): Answered
    requires |ids| == |runs|
  {
    var hash := HashOf(detect, area, runs);
    var outcome := Outcome(area.values.boundary, TracksOf(ids, runs), ChosenResolution(detect, area));
    if HashTaken(s.gaps.rows, hash) then Answered(GapReply(GapWith(s.gaps.rows, hash), true), s)
    else if outcome.Err? then Answered(Failed(CoverageInvalid), s)
    else
      var row := Row(1, DetectedGap(detect, area, hash, outcome.value));
      Answered(GapReply(row, false), s.(gaps := s.gaps.Insert(newId, row), audits := s.audits + [GapAdded(newId, row)]))
  }

  /**
   A detection answers with the gap of the same input hash, if there is one, and otherwise calculates and adds one.
   */
  ghost function AfterDetect(s: System, detect: DetectRequest, choice: Choice): Answered
    requires TablesComplete(s) && IsAnswer(choice.order, detect.runIds, s.runs.rows)
  {
    var runs := RowsOf(s.runs.rows, choice.order);
    if !(8 <= |detect.key| <= 120) then Answered(Failed(KeyRequired), s)
    else if detect.areaId !in s.areas.rows then Answered(Failed(NotFound), s)
    else if |runs| != |UniqueIds(detect.runIds)| then Answered(Failed(RunSetIncomplete), s)
    else if !AllIn(PlanIdsOf(runs), s.plans.rows) then Answered(Failed(RunAreaMismatch), s)
    else
      var problem := CheckSources(detect.areaId, DataOf(runs), DataOf(RowsOf(s.plans.rows, PlanIdsOf(runs))));
      if problem.Some? then Answered(Failed(problem.value), s)
      else AfterCheckedDetection(s, detect, s.areas.rows[detect.areaId].data, choice.order, DataOf(runs), choice.newId)
  }

  // ---------- One row per checksum and per hash ----------

  lemma OnlyRunWith(runs: map<nat, Row<Run>>, id: nat)
    requires UniqueRuns(runs) && id in runs
    ensures ChecksumTaken(runs, runs[id].data.checksum) && RunWith(runs, runs[id].data.checksum) == runs[id]
  {
    assert ChecksumTaken(runs, runs[id].data.checksum);
    var other :| other in runs && runs[other] == RunWith(runs, runs[id].data.checksum)
      && runs[other].data.checksum == runs[id].data.checksum;
  }

  lemma OnlyGapWith(gaps: map<nat, Row<Gap>>, id: nat)
    requires UniqueGaps(gaps) && id in gaps
    ensures HashTaken(gaps, gaps[id].data.hash) && GapWith(gaps, gaps[id].data.hash) == gaps[id]
  {
    assert HashTaken(gaps, gaps[id].data.hash);
    var other :| other in gaps && gaps[other] == GapWith(gaps, gaps[id].data.hash)
      && gaps[other].data.hash == gaps[id].data.hash;
  }

  // ---------- Undisturbed tasks ----------

  /** A request whose task is the only one to move, for `n` steps. */
  function Alone(tid: nat, request: Task, choice: Choice, n: nat): seq<Event> {
    [Arrive(tid, request)] + Moves(tid, choice, n)
  }

  function Moves(tid: nat, choice: Choice, n: nat): seq<Event> {
    if n == 0 then [] else [Advance(tid, choice)] + Moves(tid, choice, n - 1)
  }

  lemma FirstMove(s: System, tid: nat, choice: Choice, n: nat)
    requires TablesComplete(s) && n > 0
    ensures From(s, Moves(tid, choice, n)) == From(Apply(s, Advance(tid, choice)), Moves(tid, choice, n - 1))
  {
    hide Apply, From;
    FromFirst(s, Advance(tid, choice), Moves(tid, choice, n - 1));
  }

  lemma {:induction false} NoMoreMoves(s: System, tid: nat, choice: Choice, n: nat)
    requires TablesComplete(s) && tid !in s.tasks
    ensures From(s, Moves(tid, choice, n)) == s
  {
    hide Step;
    if n > 0 {
      FirstMove(s, tid, choice, n);
      NoMoreMoves(s, tid, choice, n - 1);
    }
  }

  /** One step takes a request from one position to the next, and the rest of the system from `s` to `t`. */
  ghost predicate Leads(s: System, tid: nat, from: Task, choice: Choice, t: System, to: Task) {
    && TablesComplete(s) && TablesComplete(t) && tid !in s.tasks && tid !in t.tasks
    && Apply(s.Goto(tid, from), Advance(tid, choice)) == t.Goto(tid, to)
  }

  /** One step answers the request. */
  ghost predicate Ends(s: System, tid: nat, from: Task, choice: Choice, done: Answered) {
    && TablesComplete(s) && TablesComplete(done.state) && tid !in s.tasks && tid !in done.state.tasks
    && Apply(s.Goto(tid, from), Advance(tid, choice)) == done.Told(tid)
  }

  lemma MovesOn(s: System, tid: nat, from: Task, choice: Choice, t: System, to: Task, n: nat)
    requires Leads(s, tid, from, choice, t, to) && n > 0
    ensures From(s.Goto(tid, from), Moves(tid, choice, n)) == From(t.Goto(tid, to), Moves(tid, choice, n - 1))
  {
    hide Apply, From, Moves;
    FirstMove(s.Goto(tid, from), tid, choice, n);
  }

  /** After its last step a request has gone, and whatever else it is asked to do changes nothing. */
  lemma Finishes(s: System, tid: nat, from: Task, choice: Choice, n: nat, done: Answered)
    requires Ends(s, tid, from, choice, done) && n > 0
    ensures From(s.Goto(tid, from), Moves(tid, choice, n)) == done.Told(tid)
  {
    hide Apply, From, Moves;
    FirstMove(s.Goto(tid, from), tid, choice, n);
    NoMoreMoves(done.Told(tid), tid, choice, n - 1);
  }

  lemma Arrives(s: System, tid: nat, request: Task, choice: Choice, n: nat)
    requires TablesComplete(s) && tid !in s.tasks && request.IsRequest()
    ensures TablesComplete(s.Goto(tid, request))
    ensures From(s, Alone(tid, request, choice, n)) == From(s.Goto(tid, request), Moves(tid, choice, n))
  {
    hide From, Moves;
    FromFirst(s, Arrive(tid, request), Moves(tid, choice, n));
  }

  // ---------- Tasks by table ----------

  lemma AreaTaskMoves(s: System, tid: nat, choice: Choice)
    requires TablesComplete(s) && tid in s.tasks
    requires var t := s.tasks[tid]; t.AreaCreate? || t.AreaUpdate? || t.AreaUpdateChecked? || t.AreaWritten?
    ensures Apply(s, Advance(tid, choice)) == StepArea(s, tid, s.tasks[tid], choice)
  {
    hide StepArea, StepPlan, StepRun, StepGap;
  }

  lemma PlanTaskMoves(s: System, tid: nat, choice: Choice)
    requires TablesComplete(s) && tid in s.tasks
    requires var t := s.tasks[tid];
      || t.PlanCreate? || t.PlanCreateChecked? || t.PlanUpdate? || t.PlanUpdateChecked? || t.PlanLock?
      || t.PlanLockChecked? || t.PlanWritten? || t.PlanCopy? || t.PlanCopyRead?
    ensures Apply(s, Advance(tid, choice)) == StepPlan(s, tid, s.tasks[tid], choice)
  {
    hide StepArea, StepPlan, StepRun, StepGap;
  }

  lemma RunTaskMoves(s: System, tid: nat, choice: Choice)
    requires TablesComplete(s) && tid in s.tasks
    requires var t := s.tasks[tid];
      t.RunImport? || t.RunImportChecked? || t.RunImportMissed? || t.RunMove? || t.RunMoveChecked? || t.RunWritten?
    ensures Apply(s, Advance(tid, choice)) == StepRun(s, tid, s.tasks[tid], choice)
  {
    hide StepArea, StepPlan, StepRun, StepGap;
  }

  lemma GapTaskMoves(s: System, tid: nat, choice: Choice)
    requires TablesComplete(s) && tid in s.tasks
    requires var t := s.tasks[tid];
      || t.GapDetect? || t.GapDetectArea? || t.GapDetectRuns? || t.GapDetectHashed? || t.GapDetectMissed?
      || t.GapMove? || t.GapMoveChecked? || t.GapWritten?
    ensures Apply(s, Advance(tid, choice)) == StepGap(s, tid, s.tasks[tid], choice)
  {
    hide StepArea, StepPlan, StepRun, StepGap;
  }

  /** The last step of every successful write: its audit event is appended, and the request answered. */
  lemma AuditEnds(s: System, tid: nat, choice: Choice, audit: Audit)
    requires TablesComplete(s) && tid !in s.tasks
    ensures Ends(s, tid, Auditing(audit), choice, Answered(ReplyAfter(audit), s.(audits := s.audits + [audit])))
  {
    hide StepArea, StepPlan, StepRun, StepGap, ReplyAfter;
    ComesAndGoes(s.(audits := s.audits + [audit]), tid);
  }

  /** A task that is new to a system leaves nothing but its answer. */
  lemma ComesAndGoes(s: System, tid: nat)
    requires tid !in s.tasks
    ensures forall task, reply :: s.Goto(tid, task).Done(tid, reply) == Answered(reply, s).Told(tid)
    ensures forall a, b :: s.Goto(tid, a).Goto(tid, b) == s.Goto(tid, b)
  {
    forall task, reply
      ensures s.Goto(tid, task).Done(tid, reply) == Answered(reply, s).Told(tid)
    {
      assert s.Goto(tid, task).Done(tid, reply).tasks == s.tasks;
    }
    forall a, b
      ensures s.Goto(tid, a).Goto(tid, b) == s.Goto(tid, b)
    {
      assert s.Goto(tid, a).Goto(tid, b).tasks == s.Goto(tid, b).tasks;
    }
  }

  // ---------- The way of a request ----------

  /** Where a request stands, and the system around it. */
  datatype Position = Position(around: System, task: Task)

  ghost predicate IsWay(way: seq<Position>, tid: nat, choice: Choice) {
    && way != []
    && forall i | 0 < i < |way| :: Leads(way[i - 1].around, tid, way[i - 1].task, choice, way[i].around, way[i].task)
  }

  lemma LeadsToCompleteTables(s: System, tid: nat, from: Task, choice: Choice, t: System, to: Task)
    requires Leads(s, tid, from, choice, t, to)
    ensures TablesComplete(t)
  {
  }

  lemma {:induction false} GoesItsWay(way: seq<Position>, tid: nat, choice: Choice, n: nat, done: Answered)
    requires IsWay(way, tid, choice) && |way| <= n
    requires Ends(way[|way| - 1].around, tid, way[|way| - 1].task, choice, done)
    requires TablesComplete(way[0].around)
    ensures From(way[0].around.Goto(tid, way[0].task), Moves(tid, choice, n)) == done.Told(tid)
    decreases |way|
  {
    hide From, Moves, Leads, Ends;
    if |way| == 1 {
      Finishes(way[0].around, tid, way[0].task, choice, n, done);
    } else {
      assert Leads(way[1 - 1].around, tid, way[1 - 1].task, choice, way[1].around, way[1].task);
      LeadsToCompleteTables(way[0].around, tid, way[0].task, choice, way[1].around, way[1].task);
      MovesOn(way[0].around, tid, way[0].task, choice, way[1].around, way[1].task, n);
      GoesItsWay(way[1..], tid, choice, n - 1, done);
    }
  }

  /** A request that is left alone goes its way to its answer. */
  lemma LeftAlone(way: seq<Position>, tid: nat, choice: Choice, n: nat, done: Answered)
    requires IsWay(way, tid, choice) && |way| <= n && way[0].task.IsRequest()
    requires Ends(way[|way| - 1].around, tid, way[|way| - 1].task, choice, done)
    requires TablesComplete(way[0].around) && tid !in way[0].around.tasks
    ensures From(way[0].around, Alone(tid, way[0].task, choice, n)) == done.Told(tid)
  {
    hide From, Moves, Alone, Leads, Ends;
    GoesItsWay(way, tid, choice, n, done);
    Arrives(way[0].around, tid, way[0].task, choice, n);
  }

  lemma OneStep(a: Position, tid: nat, choice: Choice, n: nat, done: Answered)
    requires n >= 1 && a.task.IsRequest() && Ends(a.around, tid, a.task, choice, done)
    ensures From(a.around, Alone(tid, a.task, choice, n)) == done.Told(tid)
  {
    hide From, Alone, Apply;
    LeftAlone([a], tid, choice, n, done);
  }

  lemma TwoSteps(a: Position, b: Position, tid: nat, choice: Choice, n: nat, done: Answered)
    requires n >= 2 && a.task.IsRequest()
    requires Leads(a.around, tid, a.task, choice, b.around, b.task) && Ends(b.around, tid, b.task, choice, done)
    ensures From(a.around, Alone(tid, a.task, choice, n)) == done.Told(tid)
  {
    hide From, Alone, Apply;
    LeftAlone([a, b], tid, choice, n, done);
  }

  /** Check, conditional update, second read and audit event. */
  lemma UpdateSteps(a: Position, b: Position, c: Position, audit: Audit, tid: nat, choice: Choice)
    requires a.task.IsRequest()
    requires Leads(a.around, tid, a.task, choice, b.around, b.task)
      && Leads(b.around, tid, b.task, choice, c.around, c.task)
    requires Leads(c.around, tid, c.task, choice, c.around, Auditing(audit))
    ensures From(a.around, Alone(tid, a.task, choice, 4))
         == Answered(ReplyAfter(audit), c.around.(audits := c.around.audits + [audit])).Told(tid)
  {
    hide From, Alone, Apply;
    AuditEnds(c.around, tid, choice, audit);
    LeftAlone([a, b, c, Position(c.around, Auditing(audit))], tid, choice, 4,
              Answered(ReplyAfter(audit), c.around.(audits := c.around.audits + [audit])));
  }
}
