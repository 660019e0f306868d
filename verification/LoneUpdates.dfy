/** Requests that update a row, left alone: their tasks do and answer what the request functions say. */
module LoneUpdates {
  import opened Wrappers
  import opened Coverage
  import opened States
  import opened Tables
  import opened Records
  import opened Workflow
  import opened Overtaking
  import opened Requests

  // ---------- The second read ----------

  lemma AreaRereads(s: System, tid: nat, id: nat, before: Row<Area>, version: nat, choice: Choice)
    requires TablesComplete(s) && tid !in s.tasks && id in s.areas.rows
    ensures Leads(s, tid, AreaWritten(id, before, version), choice, s,
                  Auditing(AreaChanged(id, before, s.areas.rows[id], version)))
  {
    hide Apply;
    ComesAndGoes(s, tid);
    AreaTaskMoves(s.Goto(tid, AreaWritten(id, before, version)), tid, choice);
  }

  lemma PlanRereads(s: System, tid: nat, id: nat, before: Row<Plan>, version: nat, choice: Choice)
    requires TablesComplete(s) && tid !in s.tasks && id in s.plans.rows
    ensures Leads(s, tid, PlanWritten(id, before, version), choice, s,
                  Auditing(PlanChanged(id, before, s.plans.rows[id], version)))
  {
    hide Apply;
    ComesAndGoes(s, tid);
    PlanTaskMoves(s.Goto(tid, PlanWritten(id, before, version)), tid, choice);
  }

  lemma RunRereads(s: System, tid: nat, id: nat, before: Row<Run>, choice: Choice)
    requires TablesComplete(s) && tid !in s.tasks && id in s.runs.rows
    ensures Leads(s, tid, RunWritten(id, before), choice, s, Auditing(RunChanged(id, before, s.runs.rows[id])))
  {
    hide Apply;
    ComesAndGoes(s, tid);
    RunTaskMoves(s.Goto(tid, RunWritten(id, before)), tid, choice);
  }

  lemma GapRereads(s: System, tid: nat, id: nat, before: Row<Gap>, choice: Choice)
    requires TablesComplete(s) && tid !in s.tasks && id in s.gaps.rows
    ensures Leads(s, tid, GapWritten(id, before), choice, s, Auditing(GapChanged(id, before, s.gaps.rows[id])))
  {
    hide Apply;
    ComesAndGoes(s, tid);
    GapTaskMoves(s.Goto(tid, GapWritten(id, before)), tid, choice);
  }

  // ---------- Area updates ----------

  lemma AreaUpdateChecks(s: System, tid: nat, id: nat, version: nat, values: AreaValues, choice: Choice)
    requires TablesComplete(s) && tid !in s.tasks
    ensures
      if id !in s.areas.rows || CheckAreaUpdate(s.areas.rows[id].data, values).Some? then
        Ends(s, tid, AreaUpdate(id, version, values), choice, AfterAreaUpdate(s, id, version, values))
      else
        Leads(s, tid, AreaUpdate(id, version, values), choice, s,
              AreaUpdateChecked(id, version, values, s.areas.rows[id]))
  {
    hide CheckAreaUpdate, UpdatedArea, Apply;
    ComesAndGoes(s, tid);
    AreaTaskMoves(s.Goto(tid, AreaUpdate(id, version, values)), tid, choice);
  }

  lemma AreaUpdateResult(s: System, id: nat, version: nat, values: AreaValues)
    requires TablesComplete(s) && id in s.areas.rows && CheckAreaUpdate(s.areas.rows[id].data, values).None?
    ensures var before := s.areas.rows[id];
      var data := UpdatedArea(before, version, values);
      if data.None? then AfterAreaUpdate(s, id, version, values) == Answered(Failed(VersionConflict), s)
      else
        var written := s.(areas := s.areas.Commit(id, data.value, ""));
        var audit := AreaChanged(id, before, written.areas.rows[id], version);
        && TablesComplete(written) && id in written.areas.rows
        && AfterAreaUpdate(s, id, version, values)
            == Answered(ReplyAfter(audit), written.(audits := written.audits + [audit]))
  {
    hide CheckAreaUpdate, UpdatedArea;
  }

  lemma AreaUpdateWrites(s: System, tid: nat, id: nat, version: nat, values: AreaValues, choice: Choice)
    requires TablesComplete(s) && tid !in s.tasks
    requires id in s.areas.rows && CheckAreaUpdate(s.areas.rows[id].data, values).None?
    ensures var before := s.areas.rows[id];
      var data := UpdatedArea(before, version, values);
      if data.None? then
        Ends(s, tid, AreaUpdateChecked(id, version, values, before), choice, Answered(Failed(VersionConflict), s))
      else
        Leads(s, tid, AreaUpdateChecked(id, version, values, before), choice,
              s.(areas := s.areas.Commit(id, data.value, "")), AreaWritten(id, before, version))
  {
    hide CheckAreaUpdate, UpdatedArea, AfterAreaUpdate, Table.Commit, ReplyAfter, Apply;
    AreaUpdateResult(s, id, version, values);
    ComesAndGoes(s, tid);
    var before := s.areas.rows[id];
    var data := UpdatedArea(before, version, values);
    var here := s.Goto(tid, AreaUpdateChecked(id, version, values, before));
    AreaTaskMoves(here, tid, choice);
    if data.Some? {
      var written := s.(areas := s.areas.Commit(id, data.value, ""));
      ComesAndGoes(written, tid);
      assert here.(areas := written.areas) == written.Goto(tid, here.tasks[tid]);
    }
  }

  lemma AreaUpdateAlone(s: System, tid: nat, id: nat, version: nat, values: AreaValues, choice: Choice)
    requires TablesComplete(s) && tid !in s.tasks
    ensures From(s, Alone(tid, AreaUpdate(id, version, values), choice, 4))
      == AfterAreaUpdate(s, id, version, values).Told(tid)
  {
    hide CheckAreaUpdate, UpdatedArea, AfterAreaUpdate, ReplyAfter, Table.Commit, Apply, From, Alone, Leads, Ends;
    var done := AfterAreaUpdate(s, id, version, values);
    var a := Position(s, AreaUpdate(id, version, values));
    AreaUpdateChecks(s, tid, id, version, values, choice);
    if id !in s.areas.rows || CheckAreaUpdate(s.areas.rows[id].data, values).Some? {
      OneStep(a, tid, choice, 4, done);
    } else {
      AreaUpdateWrites(s, tid, id, version, values, choice);
      AreaUpdateResult(s, id, version, values);
      var before := s.areas.rows[id];
      var b := Position(s, AreaUpdateChecked(id, version, values, before));
      var data := UpdatedArea(before, version, values);
      if data.None? {
        TwoSteps(a, b, tid, choice, 4, done);
      } else {
        var c := Position(s.(areas := s.areas.Commit(id, data.value, "")), AreaWritten(id, before, version));
        AreaRereads(c.around, tid, id, before, version, choice);
        UpdateSteps(a, b, c, AreaChanged(id, before, c.around.areas.rows[id], version), tid, choice);
      }
    }
  }

  // ---------- Plan updates ----------

  lemma PlanUpdateChecks(s: System, tid: nat, id: nat, version: nat, content: PlanContent, choice: Choice)
    requires TablesComplete(s) && tid !in s.tasks
    ensures
      if id !in s.plans.rows || CheckPlanUpdate(s.plans.rows[id].data, content).Some? then
        Ends(s, tid, PlanUpdate(id, version, content), choice, AfterPlanUpdate(s, id, version, content))
      else
        Leads(s, tid, PlanUpdate(id, version, content), choice, s,
              PlanUpdateChecked(id, version, content, s.plans.rows[id]))
  {
    hide CheckPlanUpdate, UpdatedPlan, Apply;
    ComesAndGoes(s, tid);
    PlanTaskMoves(s.Goto(tid, PlanUpdate(id, version, content)), tid, choice);
  }

  lemma PlanUpdateResult(s: System, id: nat, version: nat, content: PlanContent)
    requires TablesComplete(s) && id in s.plans.rows && CheckPlanUpdate(s.plans.rows[id].data, content).None?
    ensures var before := s.plans.rows[id];
      var data := UpdatedPlan(before, version, content);
      if data.None? then AfterPlanUpdate(s, id, version, content) == Answered(Failed(VersionConflict), s)
      else
        var written := s.(plans := s.plans.Commit(id, data.value, ""));
        var audit := PlanChanged(id, before, written.plans.rows[id], version);
        && TablesComplete(written) && id in written.plans.rows
        && AfterPlanUpdate(s, id, version, content)
            == Answered(ReplyAfter(audit), written.(audits := written.audits + [audit]))
  {
    hide CheckPlanUpdate, UpdatedPlan;
  }

  lemma PlanUpdateWrites(s: System, tid: nat, id: nat, version: nat, content: PlanContent, choice: Choice)
    requires TablesComplete(s) && tid !in s.tasks
    requires id in s.plans.rows && CheckPlanUpdate(s.plans.rows[id].data, content).None?
    ensures var before := s.plans.rows[id];
      var data := UpdatedPlan(before, version, content);
      if data.None? then
        Ends(s, tid, PlanUpdateChecked(id, version, content, before), choice, Answered(Failed(VersionConflict), s))
      else
        Leads(s, tid, PlanUpdateChecked(id, version, content, before), choice,
              s.(plans := s.plans.Commit(id, data.value, "")), PlanWritten(id, before, version))
  {
    hide CheckPlanUpdate, UpdatedPlan, AfterPlanUpdate, Table.Commit, ReplyAfter, Apply;
    PlanUpdateResult(s, id, version, content);
    ComesAndGoes(s, tid);
    var before := s.plans.rows[id];
    var data := UpdatedPlan(before, version, content);
    var here := s.Goto(tid, PlanUpdateChecked(id, version, content, before));
    PlanTaskMoves(here, tid, choice);
    if data.Some? {
      var written := s.(plans := s.plans.Commit(id, data.value, ""));
      ComesAndGoes(written, tid);
      assert here.(plans := written.plans) == written.Goto(tid, here.tasks[tid]);
    }
  }

  lemma PlanUpdateAlone(s: System, tid: nat, id: nat, version: nat, content: PlanContent, choice: Choice)
    requires TablesComplete(s) && tid !in s.tasks
    ensures From(s, Alone(tid, PlanUpdate(id, version, content), choice, 4))
      == AfterPlanUpdate(s, id, version, content).Told(tid)
  {
    hide CheckPlanUpdate, UpdatedPlan, AfterPlanUpdate, ReplyAfter, Table.Commit, Apply, From, Alone, Leads, Ends;
    var done := AfterPlanUpdate(s, id, version, content);
    var a := Position(s, PlanUpdate(id, version, content));
    PlanUpdateChecks(s, tid, id, version, content, choice);
    if id !in s.plans.rows || CheckPlanUpdate(s.plans.rows[id].data, content).Some? {
      OneStep(a, tid, choice, 4, done);
    } else {
      PlanUpdateWrites(s, tid, id, version, content, choice);
      PlanUpdateResult(s, id, version, content);
      var before := s.plans.rows[id];
      var b := Position(s, PlanUpdateChecked(id, version, content, before));
      var data := UpdatedPlan(before, version, content);
      if data.None? {
        TwoSteps(a, b, tid, choice, 4, done);
      } else {
        var c := Position(s.(plans := s.plans.Commit(id, data.value, "")), PlanWritten(id, before, version));
        PlanRereads(c.around, tid, id, before, version, choice);
        UpdateSteps(a, b, c, PlanChanged(id, before, c.around.plans.rows[id], version), tid, choice);
      }
    }
  }

  // ---------- Locks ----------

  lemma PlanLockChecks(s: System, tid: nat, id: nat, version: nat, target: PlanState, choice: Choice)
    requires TablesComplete(s) && tid !in s.tasks
    ensures
      if id !in s.plans.rows || CheckPlanLock(s.plans.rows[id].data, target).Some? then
        Ends(s, tid, PlanLock(id, version, target), choice, AfterPlanLock(s, id, version, target))
      else
        Leads(s, tid, PlanLock(id, version, target), choice, s, PlanLockChecked(id, version, s.plans.rows[id]))
  {
    hide CheckPlanLock, MovedPlan, Apply;
    ComesAndGoes(s, tid);
    PlanTaskMoves(s.Goto(tid, PlanLock(id, version, target)), tid, choice);
  }

  lemma PlanLockResult(s: System, id: nat, version: nat, target: PlanState)
    requires TablesComplete(s) && id in s.plans.rows && CheckPlanLock(s.plans.rows[id].data, target).None?
    ensures var before := s.plans.rows[id];
      var data := MovedPlan(before, version, PlanDraft, PlanLocked);
      if data.None? then AfterPlanLock(s, id, version, target) == Answered(Failed(VersionConflict), s)
      else
        var written := s.(plans := s.plans.Commit(id, data.value, ""));
        var audit := PlanChanged(id, before, written.plans.rows[id], version);
        && TablesComplete(written) && id in written.plans.rows
        && AfterPlanLock(s, id, version, target)
            == Answered(ReplyAfter(audit), written.(audits := written.audits + [audit]))
  {
    hide CheckPlanLock, MovedPlan;
  }

  lemma PlanLockWrites(s: System, tid: nat, id: nat, version: nat, target: PlanState, choice: Choice)
    requires TablesComplete(s) && tid !in s.tasks
    requires id in s.plans.rows && CheckPlanLock(s.plans.rows[id].data, target).None?
    ensures var before := s.plans.rows[id];
      var data := MovedPlan(before, version, PlanDraft, PlanLocked);
      if data.None? then
        Ends(s, tid, PlanLockChecked(id, version, before), choice, Answered(Failed(VersionConflict), s))
      else
        Leads(s, tid, PlanLockChecked(id, version, before), choice,
              s.(plans := s.plans.Commit(id, data.value, "")), PlanWritten(id, before, version))
  {
    hide CheckPlanLock, MovedPlan, AfterPlanLock, Table.Commit, ReplyAfter, Apply;
    PlanLockResult(s, id, version, target);
    ComesAndGoes(s, tid);
    var before := s.plans.rows[id];
    var data := MovedPlan(before, version, PlanDraft, PlanLocked);
    var here := s.Goto(tid, PlanLockChecked(id, version, before));
    PlanTaskMoves(here, tid, choice);
    if data.Some? {
      var written := s.(plans := s.plans.Commit(id, data.value, ""));
      ComesAndGoes(written, tid);
      assert here.(plans := written.plans) == written.Goto(tid, here.tasks[tid]);
    }
  }

  lemma PlanLockAlone(s: System, tid: nat, id: nat, version: nat, target: PlanState, choice: Choice)
    requires TablesComplete(s) && tid !in s.tasks
    ensures From(s, Alone(tid, PlanLock(id, version, target), choice, 4))
      == AfterPlanLock(s, id, version, target).Told(tid)
  {
    hide CheckPlanLock, MovedPlan, AfterPlanLock, ReplyAfter, Table.Commit, Apply, From, Alone, Leads, Ends;
    var done := AfterPlanLock(s, id, version, target);
    var a := Position(s, PlanLock(id, version, target));
    PlanLockChecks(s, tid, id, version, target, choice);
    if id !in s.plans.rows || CheckPlanLock(s.plans.rows[id].data, target).Some? {
      OneStep(a, tid, choice, 4, done);
    } else {
      PlanLockWrites(s, tid, id, version, target, choice);
      PlanLockResult(s, id, version, target);
      var before := s.plans.rows[id];
      var b := Position(s, PlanLockChecked(id, version, before));
      var data := MovedPlan(before, version, PlanDraft, PlanLocked);
      if data.None? {
        TwoSteps(a, b, tid, choice, 4, done);
      } else {
        var c := Position(s.(plans := s.plans.Commit(id, data.value, "")), PlanWritten(id, before, version));
        PlanRereads(c.around, tid, id, before, version, choice);
        UpdateSteps(a, b, c, PlanChanged(id, before, c.around.plans.rows[id], version), tid, choice);
      }
    }
  }

  // ---------- Run transitions ----------

  lemma RunMoveChecks(s: System, tid: nat, id: nat, version: nat, target: RunState, reason: string, choice: Choice)
    requires TablesComplete(s) && tid !in s.tasks
    ensures
      if id !in s.runs.rows || CheckRunMove(s.runs.rows[id].data, target, reason).Some? then
        Ends(s, tid, RunMove(id, version, target, reason), choice, AfterRunMove(s, id, version, target, reason))
      else
        Leads(s, tid, RunMove(id, version, target, reason), choice, s,
              RunMoveChecked(id, version, target, s.runs.rows[id]))
  {
    hide CheckRunMove, MovedRun, Apply;
    ComesAndGoes(s, tid);
    RunTaskMoves(s.Goto(tid, RunMove(id, version, target, reason)), tid, choice);
  }

  lemma RunMoveResult(s: System, id: nat, version: nat, target: RunState, reason: string)
    requires TablesComplete(s) && id in s.runs.rows && CheckRunMove(s.runs.rows[id].data, target, reason).None?
    ensures var before := s.runs.rows[id];
      var data := MovedRun(before, version, before.data.state, target);
      if data.None? then AfterRunMove(s, id, version, target, reason) == Answered(Failed(VersionConflict), s)
      else
        var written := s.(runs := s.runs.Commit(id, data.value, ""));
        var audit := RunChanged(id, before, written.runs.rows[id]);
        && TablesComplete(written) && id in written.runs.rows
        && AfterRunMove(s, id, version, target, reason)
            == Answered(ReplyAfter(audit), written.(audits := written.audits + [audit]))
  {
    hide CheckRunMove, MovedRun;
  }

  lemma RunMoveWrites(s: System, tid: nat, id: nat, version: nat, target: RunState, reason: string, choice: Choice)
    requires TablesComplete(s) && tid !in s.tasks
    requires id in s.runs.rows && CheckRunMove(s.runs.rows[id].data, target, reason).None?
    ensures var before := s.runs.rows[id];
      var data := MovedRun(before, version, before.data.state, target);
      if data.None? then
        Ends(s, tid, RunMoveChecked(id, version, target, before), choice, Answered(Failed(VersionConflict), s))
      else
        Leads(s, tid, RunMoveChecked(id, version, target, before), choice,
              s.(runs := s.runs.Commit(id, data.value, "")), RunWritten(id, before))
  {
    hide CheckRunMove, MovedRun, AfterRunMove, Table.Commit, ReplyAfter, Apply, RunTaken, RunWith, CheckImport,
        ImportedRun;
    RunMoveResult(s, id, version, target, reason);
    ComesAndGoes(s, tid);
    var before := s.runs.rows[id];
    var data := MovedRun(before, version, before.data.state, target);
    var here := s.Goto(tid, RunMoveChecked(id, version, target, before));
    RunTaskMoves(here, tid, choice);
    if data.Some? {
      var written := s.(runs := s.runs.Commit(id, data.value, ""));
      ComesAndGoes(written, tid);
      assert here.(runs := written.runs) == written.Goto(tid, here.tasks[tid]);
    }
  }

  lemma RunMoveAlone(s: System, tid: nat, id: nat, version: nat, target: RunState, reason: string, choice: Choice)
    requires TablesComplete(s) && tid !in s.tasks
    ensures From(s, Alone(tid, RunMove(id, version, target, reason), choice, 4))
      == AfterRunMove(s, id, version, target, reason).Told(tid)
  {
    hide CheckRunMove, MovedRun, AfterRunMove, ReplyAfter, Table.Commit, Apply, From, Alone, Leads, Ends;
    var done := AfterRunMove(s, id, version, target, reason);
    var a := Position(s, RunMove(id, version, target, reason));
    RunMoveChecks(s, tid, id, version, target, reason, choice);
    if id !in s.runs.rows || CheckRunMove(s.runs.rows[id].data, target, reason).Some? {
      OneStep(a, tid, choice, 4, done);
    } else {
      RunMoveWrites(s, tid, id, version, target, reason, choice);
      RunMoveResult(s, id, version, target, reason);
      var before := s.runs.rows[id];
      var b := Position(s, RunMoveChecked(id, version, target, before));
      var data := MovedRun(before, version, before.data.state, target);
      if data.None? {
        TwoSteps(a, b, tid, choice, 4, done);
      } else {
        var c := Position(s.(runs := s.runs.Commit(id, data.value, "")), RunWritten(id, before));
        RunRereads(c.around, tid, id, before, choice);
        UpdateSteps(a, b, c, RunChanged(id, before, c.around.runs.rows[id]), tid, choice);
      }
    }
  }

  // ---------- Reviews ----------

  lemma GapMoveChecks(s: System, tid: nat, id: nat, version: nat, target: GapState, note: string, choice: Choice)
    requires TablesComplete(s) && tid !in s.tasks
    ensures
      if id !in s.gaps.rows || CheckGapMove(s.gaps.rows[id].data, target).Some? then
        Ends(s, tid, GapMove(id, version, target, note), choice, AfterGapMove(s, id, version, target, note))
      else
        Leads(s, tid, GapMove(id, version, target, note), choice, s,
              GapMoveChecked(id, version, target, note, s.gaps.rows[id]))
  {
    hide CheckGapMove, MovedGap, Annotated, Apply;
    ComesAndGoes(s, tid);
    GapTaskMoves(s.Goto(tid, GapMove(id, version, target, note)), tid, choice);
  }

  lemma GapMoveResult(s: System, id: nat, version: nat, target: GapState, note: string)
    requires TablesComplete(s) && id in s.gaps.rows && CheckGapMove(s.gaps.rows[id].data, target).None?
    ensures var before := s.gaps.rows[id];
      var data := MovedGap(before, version, before.data.state, target, Annotated(before.data.explanation, note));
      if data.None? then AfterGapMove(s, id, version, target, note) == Answered(Failed(VersionConflict), s)
      else
        var written := s.(gaps := s.gaps.Commit(id, data.value, note));
        var audit := GapChanged(id, before, written.gaps.rows[id]);
        && TablesComplete(written) && id in written.gaps.rows
        && AfterGapMove(s, id, version, target, note)
            == Answered(ReplyAfter(audit), written.(audits := written.audits + [audit]))
  {
    hide CheckGapMove, MovedGap, Annotated;
  }

  lemma GapMoveWrites(s: System, tid: nat, id: nat, version: nat, target: GapState, note: string, choice: Choice)
    requires TablesComplete(s) && tid !in s.tasks
    requires id in s.gaps.rows && CheckGapMove(s.gaps.rows[id].data, target).None?
    ensures var before := s.gaps.rows[id];
      var data := MovedGap(before, version, before.data.state, target, Annotated(before.data.explanation, note));
      if data.None? then
        Ends(s, tid, GapMoveChecked(id, version, target, note, before), choice, Answered(Failed(VersionConflict), s))
      else
        Leads(s, tid, GapMoveChecked(id, version, target, note, before), choice,
              s.(gaps := s.gaps.Commit(id, data.value, note)), GapWritten(id, before))
  {
    hide CheckGapMove, MovedGap, Annotated, AfterGapMove, Table.Commit, ReplyAfter, Apply, Outcome, HashTaken, HashOf,
        GapWith, CheckSources, IsAnswer, AllIn, PlanIdsOf, RowsOf, DataOf, UniqueIds, TracksOf, ChosenResolution,
        DetectedGap;
    GapMoveResult(s, id, version, target, note);
    ComesAndGoes(s, tid);
    var before := s.gaps.rows[id];
    var data := MovedGap(before, version, before.data.state, target, Annotated(before.data.explanation, note));
    var here := s.Goto(tid, GapMoveChecked(id, version, target, note, before));
    GapTaskMoves(here, tid, choice);
    if data.Some? {
      var written := s.(gaps := s.gaps.Commit(id, data.value, note));
      ComesAndGoes(written, tid);
      assert here.(gaps := written.gaps) == written.Goto(tid, here.tasks[tid]);
    }
  }

  lemma GapMoveAlone(s: System, tid: nat, id: nat, version: nat, target: GapState, note: string, choice: Choice)
    requires TablesComplete(s) && tid !in s.tasks
    ensures From(s, Alone(tid, GapMove(id, version, target, note), choice, 4))
      == AfterGapMove(s, id, version, target, note).Told(tid)
  {
    hide CheckGapMove, MovedGap, Annotated, AfterGapMove, ReplyAfter, Table.Commit, Apply, From, Alone, Leads, Ends;
    var done := AfterGapMove(s, id, version, target, note);
    var a := Position(s, GapMove(id, version, target, note));
    GapMoveChecks(s, tid, id, version, target, note, choice);
    if id !in s.gaps.rows || CheckGapMove(s.gaps.rows[id].data, target).Some? {
      OneStep(a, tid, choice, 4, done);
    } else {
      GapMoveWrites(s, tid, id, version, target, note, choice);
      GapMoveResult(s, id, version, target, note);
      var before := s.gaps.rows[id];
      var b := Position(s, GapMoveChecked(id, version, target, note, before));
      var data := MovedGap(before, version, before.data.state, target, Annotated(before.data.explanation, note));
      if data.None? {
        TwoSteps(a, b, tid, choice, 4, done);
      } else {
        var c := Position(s.(gaps := s.gaps.Commit(id, data.value, note)), GapWritten(id, before));
        GapRereads(c.around, tid, id, before, choice);
        UpdateSteps(a, b, c, GapChanged(id, before, c.around.gaps.rows[id]), tid, choice);
      }
    }
  }
}
