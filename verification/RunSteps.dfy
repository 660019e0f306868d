/** The steps of run requests keep the invariant. */
module RunSteps {
  import opened Wrappers
  import opened States
  import opened Checksums
  import opened Tables
  import opened Records
  import opened Evolution
  import opened Workflow
  import opened Invariant
  import opened Preservation

  lemma InsertRun(t: Table<Run>, newId: nat, row: Row<Run>)
    requires LegalRuns(t) && UniqueRuns(t.rows) && newId !in t.rows && !RunTaken(t.rows, row.data)
    ensures LegalRuns(t.Insert(newId, row)) && Extends(t.Insert(newId, row), t) && UniqueRuns(t.Insert(newId, row).rows)
    ensures Created(t.Insert(newId, row), newId, row)
  {
    hide RunStep, UniqueRuns, RunTaken;
    InsertKeeps(t, newId, row);
    InsertExtends(t, newId, row);
    UniqueWithOneMore(t.rows, newId, row);
  }

  lemma UniqueWithOneMore(runs: map<nat, Row<Run>>, newId: nat, row: Row<Run>)
    requires UniqueRuns(runs) && !RunTaken(runs, row.data)
    ensures UniqueRuns(runs[newId := row])
  {
  }

  lemma UniqueWithSameKeys(runs: map<nat, Row<Run>>, id: nat, row: Row<Run>)
    requires UniqueRuns(runs) && id in runs && row.data.code == runs[id].data.code
      && row.data.checksum == runs[id].data.checksum
    ensures UniqueRuns(runs[id := row])
  {
  }

  lemma RunAddKeeps(s: System, tid: nat, newId: nat, row: Row<Run>)
    requires Inv(s) && newId !in s.runs.rows && !RunTaken(s.runs.rows, row.data) && SoundRun(s.plans.rows, row.data)
    ensures Inv(s.(runs := s.runs.Insert(newId, row)).Goto(tid, Auditing(RunAdded(newId, row))))
  {
    hide Inv, SoundTables, LegalRuns, UniqueRuns, RunTaken, Extends, Grown, Created, SoundRun;
    InvParts(s);
    AllRunsSound(s);
    InsertRun(s.runs, newId, row);
    RunsChange(s, s.runs.Insert(newId, row));
    WriteKeeps(s, s.(runs := s.runs.Insert(newId, row)), tid, Auditing(RunAdded(newId, row)));
  }

  lemma EditRun(t: Table<Run>, id: nat, data: Run)
    requires LegalRuns(t) && UniqueRuns(t.rows) && id in t.rows && id in t.edits
    requires RunStep(Edit(t.rows[id], Row(t.rows[id].version + 1, data), ""))
    ensures var later := t.Commit(id, data, "");
      LegalRuns(later) && Extends(later, t) && UniqueRuns(later.rows)
          && Written(later, id, t.rows[id], t.rows[id].version)
  {
    hide RunStep, UniqueRuns, LegalRuns, Extends, Written;
    CommitRun(t, id, data, "");
    CommitIsWritten(t, id, data, "", t.rows[id]);
    SameKeys(t.rows[id], Row(t.rows[id].version + 1, data));
    UniqueWithSameKeys(t.rows, id, Row(t.rows[id].version + 1, data));
  }

  lemma SameKeys(before: Row<Run>, after: Row<Run>)
    requires RunStep(Edit(before, after, ""))
    ensures after.data.code == before.data.code && after.data.checksum == before.data.checksum
  {
  }

  lemma EditedRunIsSound(plans: map<nat, Row<Plan>>, before: Row<Run>, after: Row<Run>)
    requires RunStep(Edit(before, after, "")) && SoundRun(plans, before.data)
    ensures SoundRun(plans, after.data)
  {
  }

  lemma AllRunsSound(s: System)
    requires Inv(s)
    ensures forall i | i in s.runs.rows :: SoundRun(s.plans.rows, s.runs.rows[i].data)
  {
    hide SoundRun, SoundGap, LegalAreas, LegalPlans, LegalRuns, LegalGaps, TaskOk, AuditOk;
  }

  lemma RunEditKeeps(s: System, tid: nat, id: nat, data: Run)
    requires Inv(s) && id in s.runs.rows && id in s.runs.edits
    requires RunStep(Edit(s.runs.rows[id], Row(s.runs.rows[id].version + 1, data), ""))
    ensures Inv(s.(runs := s.runs.Commit(id, data, "")).Goto(tid, RunWritten(id, s.runs.rows[id])))
  {
    hide Inv, SoundTables, LegalRuns, UniqueRuns, Extends, Grown, Written, RunStep, SoundRun, SoundGap;
    InvParts(s);
    AllRunsSound(s);
    EditRun(s.runs, id, data);
    EditedRunIsSound(s.plans.rows, s.runs.rows[id], Row(s.runs.rows[id].version + 1, data));
    RunsChange(s, s.runs.Commit(id, data, ""));
    WriteKeeps(s, s.(runs := s.runs.Commit(id, data, "")), tid, RunWritten(id, s.runs.rows[id]));
  }

  /** A transition whose write matches a row replaces exactly the row that was read. */
  lemma RunMoveMatches(s: System, tid: nat)
    requires Inv(s) && tid in s.tasks && s.tasks[tid].RunMoveChecked?
    ensures var t := s.tasks[tid];
      && t.id in s.runs.rows && t.id in s.runs.edits
      && var data := MovedRun(s.runs.rows[t.id], t.version, t.runBefore.data.state, t.runTarget);
         data.Some? ==>
           s.runs.rows[t.id] == t.runBefore && RunStep(Edit(t.runBefore, Row(t.runBefore.version + 1, data.value), ""))
  {
    hide Inv, SoundTables;
    InvParts(s);
    InvTask(s, tid);
    SeenRun(s.runs, s.tasks[tid].id, s.tasks[tid].runBefore);
  }

  lemma RunWriteKnown(s: System, tid: nat)
    requires Inv(s) && tid in s.tasks && s.tasks[tid].RunWritten?
    ensures var t := s.tasks[tid]; Written(s.runs, t.id, t.runBefore, t.runBefore.version)
  {
    hide Inv, Written;
    InvTask(s, tid);
  }

  lemma RunRereadOk(s: System, tid: nat)
    requires Inv(s) && tid in s.tasks && s.tasks[tid].RunWritten?
    ensures var t := s.tasks[tid];
      t.id in s.runs.rows && Inv(s.Goto(tid, Auditing(RunChanged(t.id, t.runBefore, s.runs.rows[t.id]))))
  {
    hide Inv, SoundTables, Written, Described, LegalRuns;
    InvParts(s);
    RunWriteKnown(s, tid);
    var t := s.tasks[tid];
    RereadDescribes(s.runs, t.id, t.runBefore, t.runBefore.version);
    AuditIsTask(s, RunChanged(t.id, t.runBefore, s.runs.rows[t.id]));
    hide TaskOk;
    ReadKeeps(s, tid, Auditing(RunChanged(t.id, t.runBefore, s.runs.rows[t.id])));
  }

  lemma RunReadOk(s: System, tid: nat, task: Task)
    requires Inv(s)
    requires match task
      case RunImportChecked(request, plan) =>
        && request.source.planId in s.plans.rows && plan == s.plans.rows[request.source.planId]
        && CheckImport(plan.data, request).None?
      case RunMoveChecked(id, _, target, before) =>
        id in s.runs.rows && before == s.runs.rows[id] && before.data.state.CanTransition(target)
          && (target == QualityChecked ==> before.data.quality != Invalid)
      case _ => false
    ensures Inv(s.Goto(tid, task))
  {
    hide Inv, SoundTables;
    InvParts(s);
    ReadKeeps(s, tid, task);
  }

  lemma ImportMissedOk(s: System, tid: nat)
    requires Inv(s) && tid in s.tasks && s.tasks[tid].RunImportChecked?
    ensures Inv(s.Goto(tid, RunImportMissed(s.tasks[tid].request, s.tasks[tid].plan)))
  {
    hide Inv, SoundTables, Seen;
    InvTask(s, tid);
    ReadKeeps(s, tid, RunImportMissed(s.tasks[tid].request, s.tasks[tid].plan));
  }

  lemma ImportedIsSound(s: System, tid: nat)
    requires Inv(s) && tid in s.tasks && s.tasks[tid].RunImportMissed? && s.tasks[tid].request.source.swath > 0.0
    ensures SoundRun(s.plans.rows, ImportedRun(s.tasks[tid].request))
  {
    hide Inv, SoundTables, Payload;
    InvParts(s);
    InvTask(s, tid);
    SeenPlan(s.plans, s.tasks[tid].request.source.planId, s.tasks[tid].plan);
  }

  lemma StepRunKeeps(s: System, tid: nat, choice: Choice)
    requires Inv(s) && tid in s.tasks
    ensures Inv(StepRun(s, tid, s.tasks[tid], choice))
  {
    hide Inv, TaskOk, AuditOk, ValidLines, Payload, ImportedRun, RunTaken, ChecksumTaken, RunStep;
    DoneKeeps(s, tid);
    match s.tasks[tid]
    case RunImport(request) =>
      var planId := request.source.planId;
      if planId in s.plans.rows && CheckImport(s.plans.rows[planId].data, request).None? {
        RunReadOk(s, tid, RunImportChecked(request, s.plans.rows[planId]));
      }
    case RunImportChecked(request, plan) =>
      ImportMissedOk(s, tid);
    case RunImportMissed(request, plan) =>
      if request.source.swath > 0.0 && choice.newId !in s.runs.rows && !RunTaken(s.runs.rows, ImportedRun(request)) {
        ImportedIsSound(s, tid);
        RunAddKeeps(s, tid, choice.newId, Row(1, ImportedRun(request)));
      }
    case RunMove(id, version, target, reason) =>
      if id in s.runs.rows && CheckRunMove(s.runs.rows[id].data, target, reason).None? {
        RunReadOk(s, tid, RunMoveChecked(id, version, target, s.runs.rows[id]));
      }
    case RunMoveChecked(id, version, target, before) =>
      RunMoveMatches(s, tid);
      if MovedRun(s.runs.rows[id], version, before.data.state, target).Some? {
        RunEditKeeps(s, tid, id, MovedRun(s.runs.rows[id], version, before.data.state, target).value);
      }
    case RunWritten(id, before) =>
      RunRereadOk(s, tid);
    case _ =>
  }
}
