/**
 How the tables grow along a run: rows are never lost, versions never fall, and a row changes only by its own write.
 */
module Growth {
  import opened Wrappers
  import opened Coverage
  import opened Checksums
  import opened Tables
  import opened Records
  import opened Evolution
  import opened Workflow
  import opened Invariant
  import opened Reachability
  import opened Reading

  /** A stored row, by table and id. */
  datatype Key = AreaKey(id: nat) | PlanKey(id: nat) | RunKey(id: nat) | GapKey(id: nat)

  ghost predicate Stored(s: System, key: Key) {
    match key
    case AreaKey(id) => id in s.areas.rows
    case PlanKey(id) => id in s.plans.rows
    case RunKey(id) => id in s.runs.rows
    case GapKey(id) => id in s.gaps.rows
  }

  ghost function VersionOf(s: System, key: Key): nat
    requires Stored(s, key)
  {
    match key
    case AreaKey(id) => s.areas.rows[id].version
    case PlanKey(id) => s.plans.rows[id].version
    case RunKey(id) => s.runs.rows[id].version
    case GapKey(id) => s.gaps.rows[id].version
  }

  ghost predicate SameRow(s: System, later: System, key: Key) {
    match key
    case AreaKey(id) => id in s.areas.rows && id in later.areas.rows && later.areas.rows[id] == s.areas.rows[id]
    case PlanKey(id) => id in s.plans.rows && id in later.plans.rows && later.plans.rows[id] == s.plans.rows[id]
    case RunKey(id) => id in s.runs.rows && id in later.runs.rows && later.runs.rows[id] == s.runs.rows[id]
    case GapKey(id) => id in s.gaps.rows && id in later.gaps.rows && later.gaps.rows[id] == s.gaps.rows[id]
  }

  /** A task in this position writes the row next: it expects this version, and its conditional update matches. */
  ghost predicate TaskWrites(s: System, task: Task, key: Key, version: nat) {
    match task
    case AreaUpdateChecked(id, expected, values, _) =>
      key == AreaKey(id) && expected == version && id in s.areas.rows
          && UpdatedArea(s.areas.rows[id], expected, values).Some?
    case PlanUpdateChecked(id, expected, content, _) =>
      key == PlanKey(id) && expected == version && id in s.plans.rows
          && UpdatedPlan(s.plans.rows[id], expected, content).Some?
    case PlanLockChecked(id, expected, _) =>
      key == PlanKey(id) && expected == version && id in s.plans.rows
          && MovedPlan(s.plans.rows[id], expected, PlanDraft, PlanLocked).Some?
    case RunMoveChecked(id, expected, target, before) =>
      key == RunKey(id) && expected == version && id in s.runs.rows
          && MovedRun(s.runs.rows[id], expected, before.data.state, target).Some?
    case GapMoveChecked(id, expected, target, note, before) =>
      key == GapKey(id) && expected == version && id in s.gaps.rows
        && MovedGap(s.gaps.rows[id], expected, before.data.state, target,
                    Annotated(before.data.explanation, note)).Some?
    case _ => false
  }

  ghost predicate Succeeds(s: System, e: Event, key: Key, version: nat) {
    e.Advance? && e.tid in s.tasks && TaskWrites(s, s.tasks[e.tid], key, version)
  }

  // ---------- One step ----------

  /** Nothing happened to this row, or it was written once in answer to its present version. */
  ghost predicate RowStep(s: System, later: System, task: Task, key: Key)
    requires Stored(s, key)
  {
    && Stored(later, key)
    && (if TaskWrites(s, task, key, VersionOf(s, key)) then VersionOf(later, key) == VersionOf(s, key) + 1
        else SameRow(s, later, key))
  }

  lemma ReadIsRowStep(s: System, later: System, task: Task, key: Key)
    requires ReadsOnly(task) && SameStore(s, later) && Stored(s, key)
    ensures RowStep(s, later, task, key) && Grown(later, s)
  {
    hide Extends;
    ExtendsAll(s);
  }

  lemma AreaRowStep(s: System, tid: nat, task: Task, choice: Choice, key: Key)
    requires TablesComplete(s) && Stored(s, key)
      && (task.AreaCreate? || task.AreaUpdate? || task.AreaUpdateChecked? || task.AreaWritten?)
    ensures RowStep(s, StepArea(s, tid, task, choice), task, key)
    ensures Grown(StepArea(s, tid, task, choice), s)
  {
    hide StepArea, TablesComplete, Extends, UpdatedArea;
    ExtendsAll(s);
    if ReadsOnly(task) {
      AreaReads(s, tid, task, choice);
      ReadIsRowStep(s, StepArea(s, tid, task, choice), task, key);
    } else {
      AreaStepsLeaveOthers(s, tid, task, choice);
      if key.AreaKey? {
        AreaRow(s, tid, task, choice, key.id);
      }
    }
  }

  lemma AreaStepsLeaveOthers(s: System, tid: nat, task: Task, choice: Choice)
    requires TablesComplete(s) && !ReadsOnly(task)
    ensures var later := StepArea(s, tid, task, choice);
      later.plans == s.plans && later.runs == s.runs && later.gaps == s.gaps && Extends(later.areas, s.areas)
  {
    hide ValidBoundary, CodeTaken, Extends, CheckAreaUpdate;
    ExtendsAll(s);
    InsertOrCommitExtends(s.areas);
  }

  lemma AreaRow(s: System, tid: nat, task: Task, choice: Choice, id: nat)
    requires TablesComplete(s) && !ReadsOnly(task) && id in s.areas.rows
    ensures RowStep(s, StepArea(s, tid, task, choice), task, AreaKey(id))
  {
    hide ValidBoundary, CodeTaken, CheckAreaUpdate, UpdatedArea, TaskWrites;
    OnlyOwnRow(s, task, AreaKey(id));
  }

  lemma PlanRowStep(s: System, tid: nat, task: Task, choice: Choice, key: Key)
    requires TablesComplete(s) && Stored(s, key)
    requires task.PlanCreate? || task.PlanCreateChecked? || task.PlanUpdate? || task.PlanUpdateChecked?
      || task.PlanLock?
      || task.PlanLockChecked? || task.PlanWritten? || task.PlanCopy? || task.PlanCopyRead?
    ensures RowStep(s, StepPlan(s, tid, task, choice), task, key)
    ensures Grown(StepPlan(s, tid, task, choice), s)
  {
    hide StepPlan, TablesComplete, Extends, UpdatedPlan, MovedPlan;
    ExtendsAll(s);
    if ReadsOnly(task) {
      PlanReads(s, tid, task, choice);
      ReadIsRowStep(s, StepPlan(s, tid, task, choice), task, key);
    } else {
      PlanStepsLeaveOthers(s, tid, task, choice);
      if key.PlanKey? {
        PlanRow(s, tid, task, choice, key.id);
      }
    }
  }

  lemma PlanStepsLeaveOthers(s: System, tid: nat, task: Task, choice: Choice)
    requires TablesComplete(s) && !ReadsOnly(task)
    ensures var later := StepPlan(s, tid, task, choice);
      later.areas == s.areas && later.runs == s.runs && later.gaps == s.gaps && Extends(later.plans, s.plans)
  {
    hide ValidLines, Extends, CheckPlanUpdate, CheckPlanLock, CopiedPlan;
    ExtendsAll(s);
    InsertOrCommitExtends(s.plans);
  }

  lemma PlanRow(s: System, tid: nat, task: Task, choice: Choice, id: nat)
    requires TablesComplete(s) && !ReadsOnly(task) && id in s.plans.rows
    ensures RowStep(s, StepPlan(s, tid, task, choice), task, PlanKey(id))
  {
    hide ValidLines, CheckPlanUpdate, CheckPlanLock, CopiedPlan, UpdatedPlan, MovedPlan, TaskWrites, RowStep;
    PlanRowStepIs(s, StepPlan(s, tid, task, choice), task, id);
    OnlyOwnRow(s, task, PlanKey(id));
  }

  lemma PlanRowStepIs(s: System, later: System, task: Task, id: nat)
    requires id in s.plans.rows
    ensures id in later.plans.rows
        && (if TaskWrites(s, task, PlanKey(id), s.plans.rows[id].version) then
            later.plans.rows[id].version == s.plans.rows[id].version + 1
            else later.plans.rows[id] == s.plans.rows[id])
      ==> RowStep(s, later, task, PlanKey(id))
  {
    hide TaskWrites;
  }

  lemma RunRowStep(s: System, tid: nat, task: Task, choice: Choice, key: Key)
    requires TablesComplete(s) && Stored(s, key)
    requires task.RunImport? || task.RunImportChecked? || task.RunImportMissed? || task.RunMove? || task.RunMoveChecked?
      || task.RunWritten?
    ensures RowStep(s, StepRun(s, tid, task, choice), task, key)
    ensures Grown(StepRun(s, tid, task, choice), s)
  {
    hide StepRun, TablesComplete, Extends, MovedRun;
    ExtendsAll(s);
    if ReadsOnly(task) {
      RunReads(s, tid, task, choice);
      ReadIsRowStep(s, StepRun(s, tid, task, choice), task, key);
    } else {
      RunStepsLeaveOthers(s, tid, task, choice);
      if key.RunKey? {
        RunRow(s, tid, task, choice, key.id);
      }
    }
  }

  lemma RunStepsLeaveOthers(s: System, tid: nat, task: Task, choice: Choice)
    requires TablesComplete(s) && !ReadsOnly(task)
    ensures var later := StepRun(s, tid, task, choice);
      later.areas == s.areas && later.plans == s.plans && later.gaps == s.gaps && Extends(later.runs, s.runs)
  {
    hide RunTaken, ChecksumTaken, Payload, ImportedRun, Extends, CheckImport, CheckRunMove;
    ExtendsAll(s);
    InsertOrCommitExtends(s.runs);
  }

  lemma RunRow(s: System, tid: nat, task: Task, choice: Choice, id: nat)
    requires TablesComplete(s) && !ReadsOnly(task) && id in s.runs.rows
    ensures RowStep(s, StepRun(s, tid, task, choice), task, RunKey(id))
  {
    hide RunTaken, ChecksumTaken, Payload, ImportedRun, CheckImport, CheckRunMove, MovedRun, TaskWrites;
    OnlyOwnRow(s, task, RunKey(id));
  }

  /** Only a checked request writes an existing row, and only the row it names. */
  lemma OnlyOwnRow(s: System, task: Task, key: Key)
    requires Stored(s, key)
    ensures TaskWrites(s, task, key, VersionOf(s, key)) <==>
      match key
      case AreaKey(id) => task.AreaUpdateChecked? && task.id == id
          && UpdatedArea(s.areas.rows[id], task.version, task.values).Some?
      case PlanKey(id) =>
        || (task.PlanUpdateChecked? && task.id == id && UpdatedPlan(s.plans.rows[id], task.version, task.content).Some?)
        || (task.PlanLockChecked? && task.id == id
            && MovedPlan(s.plans.rows[id], task.version, PlanDraft, PlanLocked).Some?)
      case RunKey(id) =>
        task.RunMoveChecked? && task.id == id
            && MovedRun(s.runs.rows[id], task.version, task.runBefore.data.state, task.runTarget).Some?
      case GapKey(id) =>
        task.GapMoveChecked? && task.id == id
          && MovedGap(s.gaps.rows[id], task.version, task.gapBefore.data.state, task.gapTarget,
                      Annotated(task.gapBefore.data.explanation, task.note)).Some?
  {
    hide Annotated;
  }

  lemma GapRowStep(s: System, tid: nat, task: Task, choice: Choice, key: Key)
    requires TablesComplete(s) && Stored(s, key)
    requires task.GapDetect? || task.GapDetectArea? || task.GapDetectRuns? || task.GapDetectHashed?
      || task.GapDetectMissed?
      || task.GapMove? || task.GapMoveChecked? || task.GapWritten?
    ensures RowStep(s, StepGap(s, tid, task, choice), task, key)
    ensures Grown(StepGap(s, tid, task, choice), s)
  {
    hide StepGap, TablesComplete, Extends, MovedGap, Annotated;
    ExtendsAll(s);
    if ReadsOnly(task) {
      GapReads(s, tid, task, choice);
      ReadIsRowStep(s, StepGap(s, tid, task, choice), task, key);
    } else {
      GapStepsLeaveOthers(s, tid, task, choice);
      if key.GapKey? {
        GapRow(s, tid, task, choice, key.id);
      }
    }
  }

  /** Only the table of gaps has changed, and it has grown. */
  ghost predicate GapsOnly(s: System, later: System) {
    later.areas == s.areas && later.plans == s.plans && later.runs == s.runs && Extends(later.gaps, s.gaps)
  }

  lemma WritesGapsOnly(s: System)
    ensures GapsOnly(s, s)
    ensures forall tid, task :: GapsOnly(s, s.Goto(tid, task))
    ensures forall tid, reply :: GapsOnly(s, s.Done(tid, reply))
    ensures forall id, row, tid, task | id !in s.gaps.rows ::
      GapsOnly(s, s.(gaps := s.gaps.Insert(id, row)).Goto(tid, task))
    ensures forall id, data, note, tid, task | id in s.gaps.rows && id in s.gaps.edits ::
      GapsOnly(s, s.(gaps := s.gaps.Commit(id, data, note)).Goto(tid, task))
  {
    hide Extends;
    ExtendsSelf(s.gaps);
    InsertOrCommitExtends(s.gaps);
    forall id, row, tid, task | id !in s.gaps.rows
      ensures GapsOnly(s, s.(gaps := s.gaps.Insert(id, row)).Goto(tid, task))
    {
      InsertExtends(s.gaps, id, row);
    }
  }

  lemma GapStepsLeaveOthers(s: System, tid: nat, task: Task, choice: Choice)
    requires TablesComplete(s) && !ReadsOnly(task)
    ensures GapsOnly(s, StepGap(s, tid, task, choice))
  {
    hide Outcome, HashTaken, HashOf, CheckSources, UniqueIds, Annotated, IsAnswer, AllIn, CheckGapMove, MovedGap,
        PlanIdsOf, RowsOf, DataOf, TracksOf, ChosenResolution, DetectedGap, GapWith, GapsOnly;
    WritesGapsOnly(s);
  }

  lemma GapRowStepIs(s: System, later: System, task: Task, id: nat)
    requires id in s.gaps.rows
    ensures id in later.gaps.rows
        && (if TaskWrites(s, task, GapKey(id), s.gaps.rows[id].version) then
            later.gaps.rows[id].version == s.gaps.rows[id].version + 1
            else later.gaps.rows[id] == s.gaps.rows[id])
      ==> RowStep(s, later, task, GapKey(id))
  {
    hide TaskWrites;
  }

  lemma GapRow(s: System, tid: nat, task: Task, choice: Choice, id: nat)
    requires TablesComplete(s) && !ReadsOnly(task) && id in s.gaps.rows
    ensures RowStep(s, StepGap(s, tid, task, choice), task, GapKey(id))
  {
    hide Outcome, HashTaken, HashOf, CheckSources, UniqueIds, Annotated, IsAnswer, AllIn, CheckGapMove, PlanIdsOf,
        RowsOf, DataOf, TracksOf, ChosenResolution, DetectedGap, MovedGap, TaskWrites, RowStep;
    GapRowStepIs(s, StepGap(s, tid, task, choice), task, id);
    OnlyOwnRow(s, task, GapKey(id));
  }

  lemma ExtendsAll(s: System)
    ensures Extends(s.areas, s.areas) && Extends(s.plans, s.plans) && Extends(s.runs, s.runs) && Extends(s.gaps, s.gaps)
  {
    hide Extends;
    ExtendsSelf(s.areas);
    ExtendsSelf(s.plans);
    ExtendsSelf(s.runs);
    ExtendsSelf(s.gaps);
  }

  lemma InsertOrCommitExtends<R>(t: Table<R>)
    ensures forall id, row | id !in t.rows :: Extends(t.Insert(id, row), t)
    ensures forall id, data, note | id in t.rows && id in t.edits :: Extends(t.Commit(id, data, note), t)
  {
    hide Extends;
    forall id, row | id !in t.rows
      ensures Extends(t.Insert(id, row), t)
    {
      InsertExtends(t, id, row);
    }
    forall id, data, note | id in t.rows && id in t.edits
      ensures Extends(t.Commit(id, data, note), t)
    {
      CommitExtends(t, id, data, note);
    }
  }

  /** A row changes exactly when a task's conditional update matches it, and its version then goes up by one. */
  lemma RowChangesOnlyByItsWrite(s: System, e: Event, key: Key)
    requires TablesComplete(s) && Stored(s, key)
    ensures var later := Apply(s, e);
      && Stored(later, key) && Grown(later, s)
      && (if Succeeds(s, e, key, VersionOf(s, key)) then VersionOf(later, key) == VersionOf(s, key) + 1
          else SameRow(s, later, key))
  {
    hide StepArea, StepPlan, StepRun, StepGap, TaskWrites, TablesComplete, Extends;
    ExtendsAll(s);
    if e.Advance? && e.tid in s.tasks {
      var task := s.tasks[e.tid];
      if task.AreaCreate? || task.AreaUpdate? || task.AreaUpdateChecked? || task.AreaWritten? {
        AreaRowStep(s, e.tid, task, e.choice, key);
      } else if task.RunImport? || task.RunImportChecked? || task.RunImportMissed? || task.RunMove?
          || task.RunMoveChecked? || task.RunWritten? {
        RunRowStep(s, e.tid, task, e.choice, key);
      } else if task.GapDetect? || task.GapDetectArea? || task.GapDetectRuns? || task.GapDetectHashed?
          || task.GapDetectMissed?
        || task.GapMove? || task.GapMoveChecked? || task.GapWritten? {
        GapRowStep(s, e.tid, task, e.choice, key);
      } else if task.Auditing? {
        AuditingWritesNothing(s, task, key);
      } else {
        PlanRowStep(s, e.tid, task, e.choice, key);
      }
    }
  }

  lemma AuditingWritesNothing(s: System, task: Task, key: Key)
    requires task.Auditing? && Stored(s, key)
    ensures !TaskWrites(s, task, key, VersionOf(s, key))
  {
  }

  // ---------- Whole runs ----------

  /** A successful write answers exactly the version the row has. */
  lemma SuccessMeetsVersion(s: System, e: Event, key: Key, version: nat)
    requires Succeeds(s, e, key, version)
    ensures Stored(s, key) && VersionOf(s, key) == version
  {
    hide Annotated;
  }

  lemma {:induction false} VersionsNeverFall(events: seq<Event>, n: nat, key: Key)
    requires n <= |events| && Stored(After(events[..n]), key)
    ensures Stored(After(events), key) && VersionOf(After(events[..n]), key) <= VersionOf(After(events), key)
  {
    hide Inv, Apply, VersionOf, Stored, SameRow, Succeeds;
    if n < |events| {
      var last := |events| - 1;
      assert events[..last][..n] == events[..n];
      VersionsNeverFall(events[..last], n, key);
      RowChangesOnlyByItsWrite(After(events[..last]), events[last], key);
      if SameRow(After(events[..last]), After(events), key) {
        SameRowSameVersion(After(events[..last]), After(events), key);
      }
    } else {
      assert events[..n] == events;
    }
  }

  /** From the moment a row is stored all tables only grow. */
  lemma {:induction false} TablesGrow(events: seq<Event>, n: nat, key: Key)
    requires n <= |events| && Stored(After(events[..n]), key)
    ensures Stored(After(events), key) && Grown(After(events), After(events[..n]))
  {
    hide Apply, Stored, SameRow, Succeeds, VersionOf, Extends;
    if n < |events| {
      var last := |events| - 1;
      assert events[..last][..n] == events[..n];
      TablesGrow(events[..last], n, key);
      RowChangesOnlyByItsWrite(After(events[..last]), events[last], key);
      var first, middle, now := After(events[..n]), After(events[..last]), After(events);
      ExtendsTransitively(first.areas, middle.areas, now.areas);
      ExtendsTransitively(first.plans, middle.plans, now.plans);
      ExtendsTransitively(first.runs, middle.runs, now.runs);
      ExtendsTransitively(first.gaps, middle.gaps, now.gaps);
    } else {
      assert events[..n] == events;
      ExtendsAll(After(events));
    }
  }

  lemma SameRowSameVersion(s: System, later: System, key: Key)
    requires SameRow(s, later, key)
    ensures Stored(s, key) && Stored(later, key) && VersionOf(s, key) == VersionOf(later, key)
  {
  }

  /** Of all requests that expect the same version of the same row, at most one ever succeeds. */
  lemma OneWriterPerVersion(events: seq<Event>, i: nat, j: nat, key: Key, version: nat)
    requires i < |events| && Succeeds(After(events[..i]), events[i], key, version)
    requires j < |events| && Succeeds(After(events[..j]), events[j], key, version)
    ensures i == j
  {
    hide Inv, Apply, VersionOf, Stored, SameRow, Succeeds;
    if i < j {
      LaterWriterIsLate(events, i, j, key, version);
    } else if j < i {
      LaterWriterIsLate(events, j, i, key, version);
    }
  }

  lemma LaterWriterIsLate(events: seq<Event>, i: nat, j: nat, key: Key, version: nat)
    requires i < j < |events| && Succeeds(After(events[..i]), events[i], key, version)
    ensures !Succeeds(After(events[..j]), events[j], key, version)
  {
    hide Inv, Apply, VersionOf, Stored, SameRow, Succeeds;
    SuccessMeetsVersion(After(events[..i]), events[i], key, version);
    assert events[..i + 1][..i] == events[..i];
    RowChangesOnlyByItsWrite(After(events[..i]), events[i], key);
    assert events[..j][..i + 1] == events[..i + 1];
    VersionsNeverFall(events[..j], i + 1, key);
    if Succeeds(After(events[..j]), events[j], key, version) {
      SuccessMeetsVersion(After(events[..j]), events[j], key, version);
    }
  }
}
