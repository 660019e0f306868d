/** Every step of every task keeps the invariant. */
module Preservation {
  import opened Wrappers
  import opened Plane
  import opened Coverage
  import opened Checksums
  import opened Tables
  import opened Records
  import opened Evolution
  import opened Workflow
  import opened Invariant

  // ---------- Changing one table ----------

  lemma GrownByOne(s: System, later: System)
    requires s.areas == later.areas || Extends(later.areas, s.areas)
    requires s.plans == later.plans || Extends(later.plans, s.plans)
    requires s.runs == later.runs || Extends(later.runs, s.runs)
    requires s.gaps == later.gaps || Extends(later.gaps, s.gaps)
    ensures Grown(later, s)
  {
    hide Extends;
    ExtendsSelf(s.areas);
    ExtendsSelf(s.plans);
    ExtendsSelf(s.runs);
    ExtendsSelf(s.gaps);
  }

  lemma GapsStaySound(s: System, later: System)
    requires SoundTables(s) && Grown(later, s) && LegalPlans(later.plans) && LegalRuns(later.runs)
      && later.gaps == s.gaps
    ensures forall id | id in later.gaps.rows ::
      SoundGap(later.areas.rows, later.plans.rows, later.runs.rows, later.gaps.rows[id].data)
  {
    hide SoundGap, SoundRun, RunsEvolved, PlansEvolved, RunStep, PlanStep, GapStep, AreaStep, Extends;
    RowsEvolve(s, later);
    ExtendsKeys(later.areas, s.areas);
    forall id | id in s.gaps.rows
      ensures SoundGap(later.areas.rows, later.plans.rows, later.runs.rows, s.gaps.rows[id].data)
    {
      GapStaysSound(s, later, s.gaps.rows[id].data);
    }
  }

  lemma RunsChange(s: System, runs: Table<Run>)
    requires SoundTables(s) && LegalRuns(runs) && Extends(runs, s.runs) && UniqueRuns(runs.rows)
    requires forall id | id in runs.rows :: SoundRun(s.plans.rows, runs.rows[id].data)
    ensures SoundTables(s.(runs := runs)) && Grown(s.(runs := runs), s)
  {
    hide LegalRuns, LegalPlans, LegalAreas, LegalGaps, UniqueRuns, UniqueGaps, UniqueAreas, SoundRun, SoundGap, Extends;
    GrownByOne(s, s.(runs := runs));
    GapsStaySound(s, s.(runs := runs));
  }

  lemma PlansChange(s: System, plans: Table<Plan>)
    requires SoundTables(s) && LegalPlans(plans) && Extends(plans, s.plans)
    requires forall id | id in plans.rows :: plans.rows[id].data.areaId in s.areas.rows
    ensures SoundTables(s.(plans := plans)) && Grown(s.(plans := plans), s)
  {
    hide LegalRuns, LegalPlans, LegalAreas, LegalGaps, UniqueRuns, UniqueGaps, UniqueAreas, SoundRun, SoundGap, Extends;
    var later := s.(plans := plans);
    GrownByOne(s, later);
    GapsStaySound(s, later);
    RowsEvolve(s, later);
    forall id | id in s.runs.rows
      ensures SoundRun(plans.rows, s.runs.rows[id].data)
    {
      RunStaysSound(s.plans.rows, plans.rows, s.runs.rows[id].data);
    }
  }

  lemma AreasChange(s: System, areas: Table<Area>)
    requires SoundTables(s) && LegalAreas(areas) && Extends(areas, s.areas) && UniqueAreas(areas.rows)
    ensures SoundTables(s.(areas := areas)) && Grown(s.(areas := areas), s)
  {
    hide LegalRuns, LegalPlans, LegalGaps, UniqueRuns, UniqueGaps, UniqueAreas, SoundRun, SoundGap, Extends, AreaStep;
    GrownByOne(s, s.(areas := areas));
    GapsStaySound(s, s.(areas := areas));
    ExtendsKeys(areas, s.areas);
  }

  lemma GapsChange(s: System, gaps: Table<Gap>)
    requires SoundTables(s) && LegalGaps(gaps) && Extends(gaps, s.gaps) && UniqueGaps(gaps.rows)
    requires forall id | id in gaps.rows :: SoundGap(s.areas.rows, s.plans.rows, s.runs.rows, gaps.rows[id].data)
    ensures SoundTables(s.(gaps := gaps)) && Grown(s.(gaps := gaps), s)
  {
    hide LegalRuns, LegalPlans, LegalAreas, LegalGaps, UniqueRuns, UniqueGaps, UniqueAreas, SoundRun, SoundGap, Extends;
    GrownByOne(s, s.(gaps := gaps));
  }

  lemma SameTables(s: System, later: System)
    requires SoundTables(s)
    requires later.areas == s.areas && later.plans == s.plans && later.runs == s.runs && later.gaps == s.gaps
    ensures SoundTables(later) && Grown(later, s)
  {
    hide LegalRuns, LegalPlans, LegalAreas, LegalGaps, UniqueRuns, UniqueGaps, UniqueAreas, SoundRun, SoundGap, Extends;
    GrownByOne(s, later);
  }

  /** A step that only reads. */
  lemma ReadKeeps(s: System, tid: nat, task: Task)
    requires Inv(s) && TaskOk(s, task)
    ensures Inv(s.Goto(tid, task))
  {
    hide SoundTables, TaskOk, AuditOk;
    var later := s.Goto(tid, task);
    SameTables(s, later);
    TaskStaysOk(s, later, task);
    KeepsInv(s, later, tid);
  }

  lemma DoneKeeps(s: System, tid: nat)
    requires Inv(s)
    ensures Inv(s.Dropped(tid)) && forall reply :: Inv(s.Done(tid, reply))
  {
    hide SoundTables, TaskOk, AuditOk;
    SameTables(s, s.Dropped(tid));
    KeepsInv(s, s.Dropped(tid), tid);
    forall reply
      ensures Inv(s.Done(tid, reply))
    {
      SameTables(s, s.Done(tid, reply));
      KeepsInv(s, s.Done(tid, reply), tid);
    }
  }

  /** Answers already given do not matter. */
  lemma AnswersDoNotMatter(s: System, later: System)
    requires Inv(s) && later == s.(answers := later.answers)
    ensures Inv(later)
  {
    hide SoundTables, TaskOk, AuditOk;
    SameTables(s, later);
    if 0 in s.tasks {
      InvTask(s, 0);
      TaskStaysOk(s, later, s.tasks[0]);
    }
    KeepsInv(s, later, 0);
  }

  lemma AuditKeeps(s: System, tid: nat, audit: Audit)
    requires Inv(s) && AuditOk(s, audit)
    ensures Inv(s.(audits := s.audits + [audit]).Done(tid, ReplyAfter(audit)))
  {
    hide SoundTables, TaskOk, AuditOk;
    var later := s.(audits := s.audits + [audit]).Done(tid, ReplyAfter(audit));
    SameTables(s, later);
    AuditStaysOk(s, later, audit);
    KeepsInv(s, later, tid);
  }

  /** A write to one table, after which the request goes on to its audit event. */
  lemma WriteKeeps(s: System, written: System, tid: nat, task: Task)
    requires Inv(s) && SoundTables(written) && Grown(written, s)
    requires written.tasks == s.tasks && written.audits == s.audits
    requires TaskOk(written, task)
    ensures Inv(written.Goto(tid, task))
  {
    hide SoundTables, TaskOk, AuditOk;
    var later := written.Goto(tid, task);
    SameTables(written, later);
    TaskStaysOk(written, later, task);
    KeepsInv(s, later, tid);
  }

  /** A conditional update that matches is one that expected the row's version, which is not below any version read. */
  lemma CommitIsWritten<R>(t: Table<R>, id: nat, data: R, note: string, before: Row<R>)
    requires id in t.rows && id in t.edits && Seen(t, id, before) && before.version <= t.rows[id].version
    ensures Written(t.Commit(id, data, note), id, before, t.rows[id].version)
  {
    var later := t.Commit(id, data, note);
    CommitExtends(t, id, data, note);
    StaysSeen(t, later, id, before);
    assert later.edits[id][|t.edits[id]|].before.version == t.rows[id].version;
  }

  /** What a request reads after its update is the row it has written or a later one. */
  lemma RereadDescribes<R>(t: Table<R>, id: nat, before: Row<R>, version: nat)
    requires t.WellKept() && Written(t, id, before, version)
    ensures id in t.rows && Described(t, id, before, t.rows[id], version)
  {
    VersionsCount(t.born[id], t.edits[id], t.rows[id]);
  }

  lemma AuditIsTask(s: System, audit: Audit)
    requires AuditOk(s, audit)
    ensures TaskOk(s, Auditing(audit))
  {
    hide AuditOk;
  }

  // ---------- Areas ----------

  lemma InsertArea(t: Table<Area>, newId: nat, row: Row<Area>)
    requires LegalAreas(t) && UniqueAreas(t.rows) && newId !in t.rows && !CodeTaken(t.rows, row.data.code)
    ensures LegalAreas(t.Insert(newId, row)) && Extends(t.Insert(newId, row), t)
      && UniqueAreas(t.Insert(newId, row).rows)
    ensures Created(t.Insert(newId, row), newId, row)
  {
    hide AreaStep, UniqueAreas, CodeTaken;
    InsertKeeps(t, newId, row);
    InsertExtends(t, newId, row);
    UniqueWithOneMore(t.rows, newId, row);
  }

  lemma UniqueWithOneMore(areas: map<nat, Row<Area>>, newId: nat, row: Row<Area>)
    requires UniqueAreas(areas) && !CodeTaken(areas, row.data.code)
    ensures UniqueAreas(areas[newId := row])
  {
  }

  lemma AreaCreateKeeps(s: System, tid: nat, newId: nat, row: Row<Area>)
    requires Inv(s) && newId !in s.areas.rows && !CodeTaken(s.areas.rows, row.data.code)
    ensures Inv(s.(areas := s.areas.Insert(newId, row)).Goto(tid, Auditing(AreaAdded(newId, row))))
  {
    hide Inv, SoundTables, LegalAreas, UniqueAreas, CodeTaken, Extends, Grown, Created;
    InvParts(s);
    InsertArea(s.areas, newId, row);
    AreasChange(s, s.areas.Insert(newId, row));
    WriteKeeps(s, s.(areas := s.areas.Insert(newId, row)), tid, Auditing(AreaAdded(newId, row)));
  }

  lemma EditArea(t: Table<Area>, id: nat, version: nat, values: AreaValues, before: Row<Area>)
    requires LegalAreas(t) && UniqueAreas(t.rows) && id in t.rows && UpdatedArea(t.rows[id], version, values).Some?
    requires Seen(t, id, before)
    ensures var later := t.Commit(id, UpdatedArea(t.rows[id], version, values).value, "");
      LegalAreas(later) && Extends(later, t) && UniqueAreas(later.rows) && Written(later, id, before, version)
  {
    hide LegalAreas, Seen, Written, Extends;
    var data := UpdatedArea(t.rows[id], version, values).value;
    assert id in t.edits && AreaStep(Edit(t.rows[id], Row(t.rows[id].version + 1, data), "")) by {
      AreaHistoriesExist(t);
    }
    SeenArea(t, id, before);
    CommitArea(t, id, data, "");
    CommitIsWritten(t, id, data, "", before);
  }

  lemma AreaHistoriesExist(t: Table<Area>)
    requires LegalAreas(t)
    ensures t.edits.Keys == t.rows.Keys
  {
  }

  lemma AreaUpdateKeeps(s: System, tid: nat, id: nat, version: nat, values: AreaValues, before: Row<Area>)
    requires Inv(s) && id in s.areas.rows && UpdatedArea(s.areas.rows[id], version, values).Some?
    requires Seen(s.areas, id, before)
    ensures var data := UpdatedArea(s.areas.rows[id], version, values).value;
      id in s.areas.edits && Inv(s.(areas := s.areas.Commit(id, data, "")).Goto(tid, AreaWritten(id, before, version)))
  {
    hide Inv, SoundTables, LegalAreas, UniqueAreas, Extends, Grown, Seen, Written;
    InvParts(s);
    var areas := s.areas.Commit(id, UpdatedArea(s.areas.rows[id], version, values).value, "");
    EditArea(s.areas, id, version, values, before);
    AreasChange(s, areas);
    WriteKeeps(s, s.(areas := areas), tid, AreaWritten(id, before, version));
  }

  lemma StepAreaKeeps(s: System, tid: nat, choice: Choice)
    requires Inv(s) && tid in s.tasks
    ensures Inv(StepArea(s, tid, s.tasks[tid], choice))
  {
    hide AreaStep, PlanStep, RunStep, GapStep, SoundGap, SoundRun, ValidBoundary, Inv, TaskOk, AuditOk;
    match s.tasks[tid]
    case AreaCreate(area) =>
      DoneKeeps(s, tid);
      if choice.newId !in s.areas.rows && !CodeTaken(s.areas.rows, area.code) {
        AreaCreateKeeps(s, tid, choice.newId, Row(1, area.(values := area.values.(status := AreaDraft))));
      }
    case AreaUpdate(id, version, values) =>
      DoneKeeps(s, tid);
      if id in s.areas.rows && CheckAreaUpdate(s.areas.rows[id].data, values).None? {
        AreaReadOk(s, tid, id, version, values);
      }
    case AreaUpdateChecked(id, version, values, before) =>
      DoneKeeps(s, tid);
      KnownOfAreaUpdate(s, tid);
      if UpdatedArea(s.areas.rows[id], version, values).Some? {
        AreaUpdateKeeps(s, tid, id, version, values, before);
      }
    case AreaWritten(id, before, expected) =>
      DoneKeeps(s, tid);
      AreaRereadOk(s, tid);
    case _ =>
  }

  lemma AreaReadOk(s: System, tid: nat, id: nat, version: nat, values: AreaValues)
    requires Inv(s) && id in s.areas.rows && CheckAreaUpdate(s.areas.rows[id].data, values).None?
    ensures Inv(s.Goto(tid, AreaUpdateChecked(id, version, values, s.areas.rows[id])))
  {
    ReadKeeps(s, tid, AreaUpdateChecked(id, version, values, s.areas.rows[id]));
  }

  lemma KnownOfAreaUpdate(s: System, tid: nat)
    requires Inv(s) && tid in s.tasks && s.tasks[tid].AreaUpdateChecked?
    ensures Seen(s.areas, s.tasks[tid].id, s.tasks[tid].areaBefore)
  {
    InvTask(s, tid);
  }

  lemma AreaRereadOk(s: System, tid: nat)
    requires Inv(s) && tid in s.tasks && s.tasks[tid].AreaWritten?
    ensures var t := s.tasks[tid];
      && t.id in s.areas.rows
      && Inv(s.Goto(tid, Auditing(AreaChanged(t.id, t.areaBefore, s.areas.rows[t.id], t.expected))))
  {
    hide Inv, SoundTables, Written, Described;
    InvParts(s);
    InvTask(s, tid);
    var t := s.tasks[tid];
    RereadDescribes(s.areas, t.id, t.areaBefore, t.expected);
    ReadKeeps(s, tid, Auditing(AreaChanged(t.id, t.areaBefore, s.areas.rows[t.id], t.expected)));
  }
}
