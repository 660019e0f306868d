/**
 When the audit log shows a row that was not replaced. An update of a plan or an area that expects a version its row has
 yet to reach can wait for it; the row it has read by then is an older one, and that is what its audit event shows.
 */
module StaleSnapshots {
  import opened Wrappers
  import opened Plane
  import opened Tables
  import opened Records
  import opened Workflow
  import opened Invariant
  import opened Reachability
  import opened Overtaking
  import opened AuditTrail

  /**
   The log holds an event of an update that expected this version, with a snapshot that is not the row it replaced.
   */
  ghost predicate LogsStalePlan(s: System, id: nat, read: Row<Plan>, version: nat) {
    exists n :: 0 <= n < |s.audits| && s.audits[n].PlanChanged? && !SnapshotIsExact(s, s.audits[n])
      && s.audits[n].id == id && s.audits[n].planBefore == read && s.audits[n].expected == version
  }

  ghost predicate LogsStaleArea(s: System, id: nat, read: Row<Area>, version: nat) {
    exists n :: 0 <= n < |s.audits| && s.audits[n].AreaChanged? && !SnapshotIsExact(s, s.audits[n])
      && s.audits[n].id == id && s.audits[n].areaBefore == read && s.audits[n].expected == version
  }

  lemma StaleMeansLater(events: seq<Event>, id: nat, version: nat)
    ensures forall read | LogsStalePlan(After(events), id, read, version) :: version > read.version
    ensures forall read | LogsStaleArea(After(events), id, read, version) :: version > read.version
  {
    hide Inv, Apply, SnapshotIsExact, Seen, Wrote;
    var s := After(events);
    forall n | 0 <= n < |s.audits|
      ensures AuditOk(s, s.audits[n]) && (SnapshotIsExact(s, s.audits[n]) <==> ExpectedItsSnapshot(s.audits[n]))
    {
      AuditsMatchWrites(events, n);
    }
  }

  // ---------- Plans ----------

  /** The last two steps of a plan request that has written. */
  lemma PlanIsLogged(s: System, tid: nat, choice: Choice)
    requires TablesComplete(s) && tid in s.tasks && s.tasks[tid].PlanWritten? && s.tasks[tid].id in s.plans.rows
    ensures var t := s.tasks[tid];
      var later := From(s, [Advance(tid, choice), Advance(tid, choice)]);
      && later.plans == s.plans && later.areas == s.areas
      && later.audits == s.audits + [PlanChanged(t.id, t.planBefore, s.plans.rows[t.id], t.expected)]
  {
    hide StepArea, StepRun, StepGap, TablesComplete, ValidLines, CheckPlanUpdate, CheckPlanLock, UpdatedPlan, MovedPlan,
        CopiedPlan, Table.Insert, Table.Commit;
    FromTwo(s, Advance(tid, choice), Advance(tid, choice));
  }

  lemma AreaIsLogged(s: System, tid: nat, choice: Choice)
    requires TablesComplete(s) && tid in s.tasks && s.tasks[tid].AreaWritten? && s.tasks[tid].id in s.areas.rows
    ensures var t := s.tasks[tid];
      var later := From(s, [Advance(tid, choice), Advance(tid, choice)]);
      && later.plans == s.plans && later.areas == s.areas
      && later.audits == s.audits + [AreaChanged(t.id, t.areaBefore, s.areas.rows[t.id], t.expected)]
  {
    hide StepPlan, StepRun, StepGap, TablesComplete;
    FromTwo(s, Advance(tid, choice), Advance(tid, choice));
  }

  lemma FromTwo(s: System, a: Event, b: Event)
    requires TablesComplete(s)
    ensures From(s, [a, b]) == Apply(Apply(s, a), b)
  {
    hide Apply, TablesComplete;
    assert From(Apply(Apply(s, a), b), []) == Apply(Apply(s, a), b);
    FromFirst(s, a, [b]);
    FromFirst(Apply(s, a), b, []);
    assert [a] + [b] == [a, b] && [b] + [] == [b];
  }

  /** A plan request that has passed its check finishes, with its row as it is. */
  lemma PlanRequestFinishes(s: System, tid: nat, id: nat, version: nat, read: Row<Plan>, data: Plan)
      returns (events: seq<Event>)
    requires TablesComplete(s) && tid in s.tasks && id in s.plans.rows
    requires
      || (s.tasks[tid] == PlanLockChecked(id, version, read)
          && MovedPlan(s.plans.rows[id], version, PlanDraft, PlanLocked) == Some(data))
      || (s.tasks[tid].PlanUpdateChecked? && s.tasks[tid] == PlanUpdateChecked(id, version, s.tasks[tid].content, read)
          && UpdatedPlan(s.plans.rows[id], version, s.tasks[tid].content) == Some(data))
    ensures LogsPlan(From(s, events), id, read, version)
  {
    hide UpdatedPlan, MovedPlan, Apply, From;
    var c := Choice(0, []);
    PlanIsWritten(s, tid, c, id, data);
    var s3 := Apply(s, Advance(tid, c));
    PlanIsLogged(s3, tid, c);
    events := [Advance(tid, c)] + [Advance(tid, c), Advance(tid, c)];
    FromFirst(s, Advance(tid, c), [Advance(tid, c), Advance(tid, c)]);
    var audits := From(s, events).audits;
    assert audits[|audits| - 1] == PlanChanged(id, read, s3.plans.rows[id], version);
  }

  /** The log holds an event of an update of this plan with this snapshot and this expectation. */
  ghost predicate LogsPlan(s: System, id: nat, read: Row<Plan>, version: nat) {
    exists n :: 0 <= n < |s.audits| && s.audits[n].PlanChanged?
      && s.audits[n].id == id && s.audits[n].planBefore == read && s.audits[n].expected == version
  }

  ghost predicate LogsArea(s: System, id: nat, read: Row<Area>, version: nat) {
    exists n :: 0 <= n < |s.audits| && s.audits[n].AreaChanged?
      && s.audits[n].id == id && s.audits[n].areaBefore == read && s.audits[n].expected == version
  }

  /** A logged expectation above the snapshot's version makes the snapshot stale. */
  lemma LaterMeansStale(events: seq<Event>, id: nat, version: nat)
    ensures forall read | LogsPlan(After(events), id, read, version) && version > read.version ::
      LogsStalePlan(After(events), id, read, version)
    ensures forall read | LogsArea(After(events), id, read, version) && version > read.version ::
      LogsStaleArea(After(events), id, read, version)
  {
    hide Inv, Apply, SnapshotIsExact, AuditOk;
    var s := After(events);
    forall n | 0 <= n < |s.audits|
      ensures SnapshotIsExact(s, s.audits[n]) <==> ExpectedItsSnapshot(s.audits[n])
    {
      AuditsMatchWrites(events, n);
    }
  }

  const SOME_CONTENT := PlanContent("", [[Point(0.0, 0.0), Point(1.0, 0.0)]], 0.0, 1.0, 1.0)

  /** A checked plan request that expects a later version can wait for it, write and be logged. */
  lemma WaitsAndIsLogged(s: System, tid: nat, id: nat, version: nat, read: Row<Plan>) returns (more: seq<Event>)
    requires Inv(s) && TablesComplete(s) && tid in s.tasks
    requires
      || s.tasks[tid] == PlanLockChecked(id, version, read)
      || (s.tasks[tid].PlanUpdateChecked? && s.tasks[tid] == PlanUpdateChecked(id, version, s.tasks[tid].content, read))
    requires id in s.plans.rows && s.plans.rows[id].data.state == PlanDraft && version >= s.plans.rows[id].version
    ensures LogsPlan(From(s, more), id, read, version)
  {
    hide Inv, From, LogsPlan;
    var climb := PlanClimbs(s, id, SOME_CONTENT, version);
    var late := From(s, climb);
    var data := if s.tasks[tid].PlanLockChecked? then late.plans.rows[id].data.(state := PlanLocked)
                else late.plans.rows[id].data.(content := s.tasks[tid].content);
    var finish := PlanRequestFinishes(late, tid, id, version, read, data);
    more := climb + finish;
    FromFrom(s, climb, finish);
  }

  /**
   A plan update that passes its check can go on to log a snapshot that is not the row it replaced if and only if it
   expects a version above that of the row it reads.
   */
  lemma PlanSnapshotIsStaleIff(events: seq<Event>, tid: nat, id: nat, version: nat, content: PlanContent)
    requires var s := After(events);
      && tid in s.tasks && s.tasks[tid] == PlanUpdate(id, version, content)
      && id in s.plans.rows && CheckPlanUpdate(s.plans.rows[id].data, content).None?
    ensures (exists choice, more ::
        LogsStalePlan(After(events + [Advance(tid, choice)] + more), id, After(events).plans.rows[id], version))
      <==> version > After(events).plans.rows[id].version
  {
    hide Inv, Apply, LogsStalePlan, LogsPlan, From;
    var row, c := After(events).plans.rows[id], Choice(0, []);
    forall choice, more | LogsStalePlan(After(events + [Advance(tid, choice)] + more), id, row, version)
      ensures version > row.version
    {
      StaleMeansLater(events + [Advance(tid, choice)] + more, id, version);
    }
    if version > row.version {
      PlanIsRead(After(events), tid, c);
      var more := ReadAndLogged(events, tid, id, version, row);
      LaterMeansStale(events + [Advance(tid, c)] + more, id, version);
    }
  }

  /** The same for locks. */
  lemma LockSnapshotIsStaleIff(events: seq<Event>, tid: nat, id: nat, version: nat)
    requires var s := After(events);
      && tid in s.tasks && s.tasks[tid] == PlanLock(id, version, PlanLocked)
      && id in s.plans.rows && s.plans.rows[id].data.state == PlanDraft
    ensures (exists choice, more ::
        LogsStalePlan(After(events + [Advance(tid, choice)] + more), id, After(events).plans.rows[id], version))
      <==> version > After(events).plans.rows[id].version
  {
    hide Inv, Apply, LogsStalePlan, LogsPlan, From;
    var row, c := After(events).plans.rows[id], Choice(0, []);
    forall choice, more | LogsStalePlan(After(events + [Advance(tid, choice)] + more), id, row, version)
      ensures version > row.version
    {
      StaleMeansLater(events + [Advance(tid, choice)] + more, id, version);
    }
    if version > row.version {
      PlanIsRead(After(events), tid, c);
      var more := ReadAndLogged(events, tid, id, version, row);
      LaterMeansStale(events + [Advance(tid, c)] + more, id, version);
    }
  }

  lemma ReadAndLogged(events: seq<Event>, tid: nat, id: nat, version: nat, row: Row<Plan>) returns (more: seq<Event>)
    requires var s := After(events);
      && tid in s.tasks && id in s.plans.rows && s.plans.rows[id] == row && row.data.state == PlanDraft
          && version > row.version
      && var read := Apply(s, Advance(tid, Choice(0, [])));
         || read == s.Goto(tid, PlanLockChecked(id, version, row))
         || (s.tasks[tid].PlanUpdate? && read == s.Goto(tid, PlanUpdateChecked(id, version, s.tasks[tid].content, row)))
    ensures LogsPlan(After(events + [Advance(tid, Choice(0, []))] + more), id, row, version)
  {
    hide Inv, Apply, LogsPlan, From;
    var read := Advance(tid, Choice(0, []));
    assert (events + [read])[..|events|] == events;
    AlwaysSound(events + [read]);
    more := WaitsAndIsLogged(After(events + [read]), tid, id, version, row);
    AfterFrom(events + [read], more);
  }

  // ---------- Areas ----------

  lemma AreaRequestFinishes(s: System, tid: nat, id: nat, version: nat, values: AreaValues, read: Row<Area>)
      returns (events: seq<Event>)
    requires TablesComplete(s) && tid in s.tasks && id in s.areas.rows && s.areas.rows[id].version == version
    requires s.tasks[tid] == AreaUpdateChecked(id, version, values, read)
    ensures LogsArea(From(s, events), id, read, version)
  {
    hide Apply, From;
    var c := Choice(0, []);
    AreaIsWritten(s, tid, c, s.areas.rows[id].data.(values := values));
    var s3 := Apply(s, Advance(tid, c));
    AreaIsLogged(s3, tid, c);
    events := [Advance(tid, c)] + [Advance(tid, c), Advance(tid, c)];
    FromFirst(s, Advance(tid, c), [Advance(tid, c), Advance(tid, c)]);
    var audits := From(s, events).audits;
    assert audits[|audits| - 1] == AreaChanged(id, read, s3.areas.rows[id], version);
  }

  /** The same for area updates. */
  lemma AreaSnapshotIsStaleIff(events: seq<Event>, tid: nat, id: nat, version: nat, values: AreaValues)
    requires var s := After(events);
      && tid in s.tasks && s.tasks[tid] == AreaUpdate(id, version, values)
      && id in s.areas.rows && CheckAreaUpdate(s.areas.rows[id].data, values).None?
    ensures (exists choice, more ::
        LogsStaleArea(After(events + [Advance(tid, choice)] + more), id, After(events).areas.rows[id], version))
      <==> version > After(events).areas.rows[id].version
  {
    hide Inv, Apply, LogsStaleArea, LogsArea, From;
    var row, c := After(events).areas.rows[id], Choice(0, []);
    forall choice, more | LogsStaleArea(After(events + [Advance(tid, choice)] + more), id, row, version)
      ensures version > row.version
    {
      StaleMeansLater(events + [Advance(tid, choice)] + more, id, version);
    }
    if version > row.version {
      var more := AreaReadAndLogged(events, tid, id, version, values, row);
      LaterMeansStale(events + [Advance(tid, c)] + more, id, version);
    }
  }

  lemma AreaReadAndLogged(events: seq<Event>, tid: nat, id: nat, version: nat, values: AreaValues, row: Row<Area>)
    returns (more: seq<Event>)
    requires var s := After(events);
      && tid in s.tasks && s.tasks[tid] == AreaUpdate(id, version, values) && id in s.areas.rows
          && s.areas.rows[id] == row
      && CheckAreaUpdate(row.data, values).None? && version > row.version
    ensures LogsArea(After(events + [Advance(tid, Choice(0, []))] + more), id, row, version)
  {
    hide Inv, Apply, LogsArea, From, ValidBoundary;
    var s, read := After(events), Advance(tid, Choice(0, []));
    assert (events + [read])[..|events|] == events;
    AreaIsRead(s, tid, Choice(0, []));
    var s1 := After(events + [read]);
    AlwaysSound(events + [read]);
    var climb := AreaClimbs(s1, id, values.(status := AreaActive), version);
    var finish := AreaRequestFinishes(From(s1, climb), tid, id, version, values, row);
    more := climb + finish;
    FromFrom(s1, climb, finish);
    AfterFrom(events + [read], more);
  }
}
