/** The steps of plan requests keep the invariant. */
module PlanSteps {
  import opened Wrappers
  import opened Tables
  import opened Records
  import opened Evolution
  import opened Workflow
  import opened Invariant
  import opened Preservation

  lemma InsertPlan(t: Table<Plan>, newId: nat, row: Row<Plan>)
    requires LegalPlans(t) && newId !in t.rows
    ensures LegalPlans(t.Insert(newId, row)) && Extends(t.Insert(newId, row), t)
    ensures Created(t.Insert(newId, row), newId, row)
  {
    hide PlanStep;
    InsertKeeps(t, newId, row);
    InsertExtends(t, newId, row);
  }

  lemma PlanAddedOk(s: System, id: nat, row: Row<Plan>)
    requires Created(s.plans, id, row)
    ensures TaskOk(s, Auditing(PlanAdded(id, row)))
  {
    hide Created;
  }

  lemma PlanAddKeeps(s: System, tid: nat, newId: nat, row: Row<Plan>)
    requires Inv(s) && newId !in s.plans.rows && row.data.areaId in s.areas.rows
    ensures Inv(s.(plans := s.plans.Insert(newId, row)).Goto(tid, Auditing(PlanAdded(newId, row))))
  {
    hide Inv, SoundTables, LegalPlans, Extends, Grown, Created, TaskOk;
    InvParts(s);
    PlanAreasExist(s);
    InsertPlan(s.plans, newId, row);
    PlansChange(s, s.plans.Insert(newId, row));
    PlanAddedOk(s.(plans := s.plans.Insert(newId, row)), newId, row);
    WriteKeeps(s, s.(plans := s.plans.Insert(newId, row)), tid, Auditing(PlanAdded(newId, row)));
  }

  lemma EditPlan(t: Table<Plan>, id: nat, data: Plan, before: Row<Plan>)
    requires LegalPlans(t) && id in t.rows && id in t.edits && Seen(t, id, before)
    requires PlanStep(Edit(t.rows[id], Row(t.rows[id].version + 1, data), ""))
    ensures var later := t.Commit(id, data, "");
      LegalPlans(later) && Extends(later, t) && Written(later, id, before, t.rows[id].version)
  {
    hide PlanStep, LegalPlans, Extends, Seen, Written;
    SeenPlan(t, id, before);
    CommitPlan(t, id, data, "");
    CommitIsWritten(t, id, data, "", before);
  }

  lemma PlanEditKeeps(s: System, tid: nat, id: nat, data: Plan, before: Row<Plan>)
    requires Inv(s) && id in s.plans.rows && id in s.plans.edits && Seen(s.plans, id, before)
    requires PlanStep(Edit(s.plans.rows[id], Row(s.plans.rows[id].version + 1, data), ""))
    ensures Inv(s.(plans := s.plans.Commit(id, data, "")).Goto(tid, PlanWritten(id, before, s.plans.rows[id].version)))
  {
    hide Inv, SoundTables, LegalPlans, Extends, Grown, Seen, Written, PlanStep, SoundRun, SoundGap;
    InvParts(s);
    EditPlan(s.plans, id, data, before);
    assert forall i | i in s.plans.rows :: s.plans.rows[i].data.areaId in s.areas.rows by {
      PlanAreasExist(s);
    }
    assert data.areaId == s.plans.rows[id].data.areaId by {
      SameArea(s.plans.rows[id], Row(s.plans.rows[id].version + 1, data));
    }
    PlansChange(s, s.plans.Commit(id, data, ""));
    WriteKeeps(s, s.(plans := s.plans.Commit(id, data, "")), tid, PlanWritten(id, before, s.plans.rows[id].version));
  }

  lemma PlanAreasExist(s: System)
    requires Inv(s)
    ensures forall i | i in s.plans.rows :: s.plans.rows[i].data.areaId in s.areas.rows
  {
    hide SoundRun, SoundGap, LegalAreas, LegalPlans, LegalRuns, LegalGaps, TaskOk, AuditOk;
  }

  lemma SameArea(before: Row<Plan>, after: Row<Plan>)
    requires PlanStep(Edit(before, after, ""))
    ensures after.data.areaId == before.data.areaId
  {
  }

  lemma PlanRereadOk(s: System, tid: nat)
    requires Inv(s) && tid in s.tasks && s.tasks[tid].PlanWritten?
    ensures var t := s.tasks[tid];
      && t.id in s.plans.rows
      && Inv(s.Goto(tid, Auditing(PlanChanged(t.id, t.planBefore, s.plans.rows[t.id], t.expected))))
  {
    hide Inv, SoundTables, Written, Described;
    InvParts(s);
    InvTask(s, tid);
    var t := s.tasks[tid];
    RereadDescribes(s.plans, t.id, t.planBefore, t.expected);
    ReadKeeps(s, tid, Auditing(PlanChanged(t.id, t.planBefore, s.plans.rows[t.id], t.expected)));
  }

  lemma PlanReadOk(s: System, tid: nat, task: Task)
    requires Inv(s)
    requires match task
      case PlanCreateChecked(areaId, _) => areaId in s.areas.rows
      case PlanUpdateChecked(id, _, _, before) => id in s.plans.rows && before == s.plans.rows[id]
          && before.data.state == PlanDraft
      case PlanLockChecked(id, _, before) => id in s.plans.rows && before == s.plans.rows[id]
          && before.data.state == PlanDraft
      case PlanCopyRead(id, before) => id in s.plans.rows && before == s.plans.rows[id]
      case _ => false
    ensures Inv(s.Goto(tid, task))
  {
    hide Inv, SoundTables;
    InvParts(s);
    ReadKeeps(s, tid, task);
  }

  lemma PlanTaskKnows(s: System, tid: nat)
    requires Inv(s) && tid in s.tasks
    ensures match s.tasks[tid]
      case PlanCreateChecked(areaId, _) => areaId in s.areas.rows
      case PlanUpdateChecked(id, _, _, before) => Seen(s.plans, id, before)
      case PlanLockChecked(id, _, before) => Seen(s.plans, id, before)
      case PlanCopyRead(id, before) => Seen(s.plans, id, before) && before.data.areaId in s.areas.rows
      case _ => true
  {
    hide Inv, SoundTables;
    InvParts(s);
    InvTask(s, tid);
    if s.tasks[tid].PlanCopyRead? {
      PlanAreasExist(s);
      SeenPlan(s.plans, s.tasks[tid].id, s.tasks[tid].planBefore);
    }
  }

  lemma StepPlanKeeps(s: System, tid: nat, choice: Choice)
    requires Inv(s) && tid in s.tasks
    ensures Inv(StepPlan(s, tid, s.tasks[tid], choice))
  {
    hide Inv, TaskOk, AuditOk, ValidLines;
    DoneKeeps(s, tid);
    PlanTaskKnows(s, tid);
    match s.tasks[tid]
    case PlanCreate(areaId, content) =>
      if areaId in s.areas.rows {
        PlanReadOk(s, tid, PlanCreateChecked(areaId, content));
      }
    case PlanCreateChecked(areaId, content) =>
      if choice.newId !in s.plans.rows {
        PlanAddKeeps(s, tid, choice.newId, Row(1, Plan(areaId, content, PlanDraft)));
      }
    case PlanUpdate(id, version, content) =>
      if id in s.plans.rows && CheckPlanUpdate(s.plans.rows[id].data, content).None? {
        PlanReadOk(s, tid, PlanUpdateChecked(id, version, content, s.plans.rows[id]));
      }
    case PlanUpdateChecked(id, version, content, before) =>
      if UpdatedPlan(s.plans.rows[id], version, content).Some? {
        PlanEditKeeps(s, tid, id, UpdatedPlan(s.plans.rows[id], version, content).value, before);
      }
    case PlanLock(id, version, target) =>
      if id in s.plans.rows && CheckPlanLock(s.plans.rows[id].data, target).None? {
        PlanReadOk(s, tid, PlanLockChecked(id, version, s.plans.rows[id]));
      }
    case PlanLockChecked(id, version, before) =>
      if MovedPlan(s.plans.rows[id], version, PlanDraft, PlanLocked).Some? {
        PlanEditKeeps(s, tid, id, MovedPlan(s.plans.rows[id], version, PlanDraft, PlanLocked).value, before);
      }
    case PlanWritten(id, before, expected) =>
      PlanRereadOk(s, tid);
    case PlanCopy(id) =>
      if id in s.plans.rows {
        PlanReadOk(s, tid, PlanCopyRead(id, s.plans.rows[id]));
      }
    case PlanCopyRead(id, before) =>
      if choice.newId !in s.plans.rows {
        PlanAddKeeps(s, tid, choice.newId, CopiedPlan(before));
      }
    case _ =>
  }
}
