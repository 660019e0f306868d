/**
 When a locked plan and an archived area are final. Their updates test the version only, so the guard that the
 service reads before the write protects them exactly when the expected version is not ahead of the row it read.
 */
module Freezing {
  import opened Coverage
  import opened Checksums
  import opened Tables
  import opened Records
  import opened Evolution
  import opened Workflow
  import opened Invariant
  import opened Reachability
  import opened Growth

  // ---------- With no assumption: locked stays locked ----------

  lemma {:induction false} LockedStaysLocked(events: seq<Event>, n: nat, id: nat)
    requires n <= |events| && OnLockedPlan(After(events[..n]).plans.rows, id)
    ensures OnLockedPlan(After(events).plans.rows, id)
  {
    hide Inv, Apply, PlanStep;
    if n < |events| {
      var s, later := After(events[..|events| - 1]), After(events);
      assert events[..|events| - 1][..n] == events[..n];
      LockedStaysLocked(events[..|events| - 1], n, id);
      RowChangesOnlyByItsWrite(s, events[|events| - 1], PlanKey(id));
      AlwaysSound(events[..|events| - 1]);
      AlwaysSound(events);
      InvParts(s);
      InvParts(later);
      StaysSeen(s.plans, later.plans, id, s.plans.rows[id]);
      SeenPlan(later.plans, id, s.plans.rows[id]);
    } else {
      assert events[..n] == events;
    }
  }

  // ---------- Careful requests ----------

  /** The request, when it loads its row, does not expect a version that the row has yet to reach. */
  ghost predicate ExpectsAReadVersion(s: System, e: Event) {
    e.Advance? && e.tid in s.tasks ==>
      match s.tasks[e.tid]
      case PlanUpdate(id, version, _) => id in s.plans.rows ==> version <= s.plans.rows[id].version
      case AreaUpdate(id, version, _) => id in s.areas.rows ==> version <= s.areas.rows[id].version
      case _ => true
  }

  ghost predicate Careful(events: seq<Event>) {
    forall i | 0 <= i < |events| :: ExpectsAReadVersion(After(events[..i]), events[i])
  }

  ghost predicate CarefulTask(task: Task) {
    match task
    case PlanUpdateChecked(_, version, _, before) => version <= before.version
    case AreaUpdateChecked(_, version, _, before) => version <= before.version
    case _ => true
  }

  ghost predicate CarefulTasks(s: System) {
    forall tid | tid in s.tasks :: CarefulTask(s.tasks[tid])
  }

  /** A step that changes at most this task, and leaves it careful. */
  ghost predicate StepsCarefully(tasks: map<nat, Task>, later: map<nat, Task>, tid: nat) {
    && (forall t | t in later && t != tid :: t in tasks && later[t] == tasks[t])
    && (tid in later ==> CarefulTask(later[tid]))
  }

  lemma TaskMoves(s: System, tid: nat)
    requires tid in s.tasks && CarefulTask(s.tasks[tid])
    ensures StepsCarefully(s.tasks, s.tasks, tid)
    ensures forall reply :: StepsCarefully(s.tasks, s.Done(tid, reply).tasks, tid)
    ensures forall written: System, task: Task | written.tasks == s.tasks && CarefulTask(task) ::
      StepsCarefully(s.tasks, written.Goto(tid, task).tasks, tid)
  {
  }

  lemma CarefulArea(s: System, tid: nat, choice: Choice)
    requires TablesComplete(s) && tid in s.tasks && CarefulTask(s.tasks[tid])
      && ExpectsAReadVersion(s, Advance(tid, choice))
    ensures StepsCarefully(s.tasks, StepArea(s, tid, s.tasks[tid], choice).tasks, tid)
  {
    hide ValidBoundary, CodeTaken, CheckAreaUpdate, UpdatedArea, StepsCarefully;
    TaskMoves(s, tid);
  }

  lemma CarefulPlan(s: System, tid: nat, choice: Choice)
    requires TablesComplete(s) && tid in s.tasks && CarefulTask(s.tasks[tid])
      && ExpectsAReadVersion(s, Advance(tid, choice))
    ensures StepsCarefully(s.tasks, StepPlan(s, tid, s.tasks[tid], choice).tasks, tid)
  {
    hide TablesComplete, Table.Insert, Table.Commit, ValidLines, CheckPlanLock, UpdatedPlan, MovedPlan, CopiedPlan,
        StepsCarefully;
    TaskMoves(s, tid);
  }

  lemma CarefulRun(s: System, tid: nat, choice: Choice)
    requires TablesComplete(s) && tid in s.tasks && CarefulTask(s.tasks[tid])
    ensures StepsCarefully(s.tasks, StepRun(s, tid, s.tasks[tid], choice).tasks, tid)
  {
    hide TablesComplete, Table.Insert, Table.Commit, RunTaken, ChecksumTaken, Payload, ImportedRun, CheckImport,
        CheckRunMove, MovedRun, StepsCarefully;
    TaskMoves(s, tid);
  }

  lemma CarefulGap(s: System, tid: nat, choice: Choice)
    requires TablesComplete(s) && tid in s.tasks && CarefulTask(s.tasks[tid])
    ensures StepsCarefully(s.tasks, StepGap(s, tid, s.tasks[tid], choice).tasks, tid)
  {
    hide TablesComplete, Table.Insert, Table.Commit, Outcome, HashTaken, HashOf, CheckSources, UniqueIds, Annotated,
        IsAnswer, AllIn, CheckGapMove, MovedGap, PlanIdsOf, RowsOf, DataOf, TracksOf, ChosenResolution, DetectedGap,
        StepsCarefully;
    TaskMoves(s, tid);
  }

  lemma CarefulStep(s: System, e: Event)
    requires TablesComplete(s) && CarefulTasks(s) && ExpectsAReadVersion(s, e)
    ensures CarefulTasks(Apply(s, e))
  {
    hide StepArea, StepPlan, StepRun, StepGap, CarefulTask;
    if e.Advance? && e.tid in s.tasks {
      CarefulArea(s, e.tid, e.choice);
      CarefulPlan(s, e.tid, e.choice);
      CarefulRun(s, e.tid, e.choice);
      CarefulGap(s, e.tid, e.choice);
    } else if e.Arrive? && e.task.IsRequest() {
      RequestIsCareful(e.task);
    }
  }

  lemma RequestIsCareful(task: Task)
    requires task.IsRequest()
    ensures CarefulTask(task)
  {
  }

  lemma {:induction false} CarefulRunsHaveCarefulTasks(events: seq<Event>)
    requires Careful(events)
    ensures CarefulTasks(After(events))
  {
    hide Inv, Apply, CarefulTask, ExpectsAReadVersion;
    if events != [] {
      var rest, e := events[..|events| - 1], events[|events| - 1];
      CarefulPrefix(events, |events| - 1);
      CarefulRunsHaveCarefulTasks(rest);
      CarefulStep(After(rest), e);
    } else {
      NoTasksAtFirst();
    }
  }

  lemma NoTasksAtFirst()
    ensures CarefulTasks(Start())
  {
  }

  lemma CarefulPrefix(events: seq<Event>, n: nat)
    requires Careful(events) && n <= |events|
    ensures Careful(events[..n])
    ensures n < |events| ==> ExpectsAReadVersion(After(events[..n]), events[n])
  {
    hide Inv, ExpectsAReadVersion, Apply;
    forall i | 0 <= i < n
      ensures ExpectsAReadVersion(After(events[..n][..i]), events[..n][i])
    {
      assert events[..n][..i] == events[..i];
      assert events[..n][i] == events[i];
    }
  }

  ghost predicate Frozen(s: System, key: Key) {
    match key
    case PlanKey(id) => OnLockedPlan(s.plans.rows, id)
    case AreaKey(id) => id in s.areas.rows && s.areas.rows[id].data.values.status == AreaArchived
    case _ => false
  }

  /** A careful task whose guard passed on an unfrozen row no longer matches once the row is frozen. */
  lemma FrozenRowIsNotWritten(s: System, e: Event, key: Key)
    requires Inv(s) && CarefulTasks(s) && Frozen(s, key)
    ensures Stored(s, key) && !Succeeds(s, e, key, VersionOf(s, key))
  {
    hide Inv, SoundTables, Annotated;
    if e.Advance? && e.tid in s.tasks {
      var task := s.tasks[e.tid];
      InvParts(s);
      InvTask(s, e.tid);
      assert CarefulTask(task);
      if task.PlanUpdateChecked? {
        SeenPlan(s.plans, task.id, task.planBefore);
      } else if task.AreaUpdateChecked? {
        SeenArea(s.areas, task.id, task.areaBefore);
      }
    }
  }

  /**
   In a run of careful requests a locked plan and an archived area never change again, in no column and not in version.
   */
  lemma {:induction false} FrozenRowsNeverChange(events: seq<Event>, n: nat, key: Key)
    requires Careful(events) && n <= |events| && Frozen(After(events[..n]), key)
    ensures SameRow(After(events[..n]), After(events), key)
  {
    hide Inv, Apply, CarefulTasks, Careful, Succeeds;
    if n < |events| {
      var last := |events| - 1;
      assert events[..last][..n] == events[..n];
      CarefulPrefix(events, last);
      FrozenRowsNeverChange(events[..last], n, key);
      CarefulRunsHaveCarefulTasks(events[..last]);
      AlwaysSound(events[..last]);
      FrozenRowIsNotWritten(After(events[..last]), events[last], key);
      RowChangesOnlyByItsWrite(After(events[..last]), events[last], key);
    } else {
      assert events[..n] == events;
    }
  }
}
