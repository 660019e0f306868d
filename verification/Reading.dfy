/** The steps that only read: they leave all tables and the audit log alone. */
module Reading {
  import opened Checksums
  import opened Records
  import opened Workflow

  predicate ReadsOnly(task: Task) {
    match task
    case AreaCreate(_) => false
    case AreaUpdateChecked(_, _, _, _) => false
    case PlanCreateChecked(_, _) => false
    case PlanUpdateChecked(_, _, _, _) => false
    case PlanLockChecked(_, _, _) => false
    case PlanCopyRead(_, _) => false
    case RunImportMissed(_, _) => false
    case RunMoveChecked(_, _, _, _) => false
    case GapDetectMissed(_, _, _, _, _) => false
    case GapMoveChecked(_, _, _, _, _) => false
    case Auditing(_) => false
    case _ => true
  }

  ghost predicate SameStore(s: System, later: System) {
    && later.areas == s.areas && later.plans == s.plans && later.runs == s.runs && later.gaps == s.gaps
    && later.audits == s.audits
  }

  lemma AreaReads(s: System, tid: nat, task: Task, choice: Choice)
    requires TablesComplete(s) && ReadsOnly(task)
    ensures SameStore(s, StepArea(s, tid, task, choice))
  {
    hide CheckAreaUpdate, TablesComplete;
  }

  lemma PlanReads(s: System, tid: nat, task: Task, choice: Choice)
    requires TablesComplete(s) && ReadsOnly(task)
    ensures SameStore(s, StepPlan(s, tid, task, choice))
  {
    hide ValidLines, CheckPlanUpdate, CheckPlanLock, TablesComplete;
  }

  lemma RunReads(s: System, tid: nat, task: Task, choice: Choice)
    requires TablesComplete(s) && ReadsOnly(task)
    ensures SameStore(s, StepRun(s, tid, task, choice))
  {
    hide CheckImport, CheckRunMove, ChecksumTaken, RunWith, Payload, TablesComplete;
  }

  lemma GapReads(s: System, tid: nat, task: Task, choice: Choice)
    requires TablesComplete(s) && ReadsOnly(task)
    ensures SameStore(s, StepGap(s, tid, task, choice))
  {
    hide HashTaken, HashOf, GapWith, CheckSources, UniqueIds, IsAnswer, AllIn, CheckGapMove, PlanIdsOf, RowsOf, DataOf,
        TablesComplete;
  }
}
