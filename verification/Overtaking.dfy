/**
 Why requests must expect a version they have read. An update that expects a version its row has yet to reach passes
 the guard on the row as it is, waits, and can still match after the row has been locked or archived.
 */
module Overtaking {
  import opened Wrappers
  import opened Tables
  import opened Records
  import opened Evolution
  import opened Workflow
  import opened Invariant
  import opened Preservation
  import opened Reachability

  /** The state that a run of further events leads to. */
  ghost function From(s: System, events: seq<Event>): (later: System)
    requires TablesComplete(s)
    ensures TablesComplete(later)
    decreases |events|
  {
    if events == [] then s else From(Apply(s, events[0]), events[1..])
  }

  lemma {:induction false} FromKeeps(s: System, events: seq<Event>)
    requires Inv(s) && TablesComplete(s)
    ensures Inv(From(s, events))
    decreases |events|
  {
    hide Inv, Apply;
    if events != [] {
      ApplyKeeps(s, events[0]);
      FromKeeps(Apply(s, events[0]), events[1..]);
    }
  }

  lemma {:induction false} AfterFrom(events: seq<Event>, more: seq<Event>)
    ensures After(events + more) == From(After(events), more)
    decreases |more|
  {
    hide Inv, Apply;
    if more == [] {
      assert events + more == events;
    } else {
      assert events + more == (events + [more[0]]) + more[1..];
      assert (events + [more[0]])[..|events|] == events;
      AfterFrom(events + [more[0]], more[1..]);
    }
  }

  lemma {:induction false} FromFrom(s: System, a: seq<Event>, b: seq<Event>)
    requires TablesComplete(s)
    ensures From(s, a + b) == From(From(s, a), b)
    decreases |a|
  {
    hide Inv, Apply;
    if a == [] {
      assert a + b == b;
    } else {
      assert (a + b)[1..] == a[1..] + b;
      FromFrom(Apply(s, a[0]), a[1..], b);
    }
  }

  lemma FromFirst(s: System, e: Event, rest: seq<Event>)
    requires TablesComplete(s)
    ensures From(s, [e] + rest) == From(Apply(s, e), rest)
  {
    hide Apply;
    assert ([e] + rest)[1..] == rest;
  }

  lemma FromFour(s: System, a: Event, b: Event, c: Event, d: Event)
    requires TablesComplete(s)
    ensures From(s, [a, b, c, d]) == Apply(Apply(Apply(Apply(s, a), b), c), d)
  {
    hide Apply, TablesComplete;
    var s3 := Apply(Apply(Apply(s, a), b), c);
    assert From(Apply(s3, d), []) == Apply(s3, d);
    FromFirst(s, a, [b, c, d]);
    FromFirst(Apply(s, a), b, [c, d]);
    FromFirst(Apply(Apply(s, a), b), c, [d]);
    FromFirst(s3, d, []);
    assert [a] + [b, c, d] == [a, b, c, d] && [b] + [c, d] == [b, c, d] && [c] + [d] == [c, d] && [d] + [] == [d];
  }

  /** A request of a new task runs through its read and its write, and stops. */
  function Undisturbed(tid: nat, request: Task): seq<Event> {
    [Arrive(tid, request), Advance(tid, Choice(0, [])), Advance(tid, Choice(0, [])), Abandon(tid)]
  }

  lemma {:induction false} SomeNewTask(tasks: map<nat, Task>) returns (tid: nat)
    ensures tid !in tasks
  {
    tid := Above(tasks.Keys);
  }

  lemma {:induction false} Above(ids: set<nat>) returns (bound: nat)
    ensures forall id | id in ids :: id < bound
    decreases |ids|
  {
    if ids == {} {
      bound := 0;
    } else {
      var id :| id in ids;
      var rest := Above(ids - {id});
      bound := if id < rest then rest else id + 1;
      assert ids == (ids - {id}) + {id};
    }
  }

  // ---------- Plans ----------

  lemma PlanIsRead(s: System, tid: nat, choice: Choice)
    requires TablesComplete(s) && tid in s.tasks
    ensures match s.tasks[tid]
      case PlanUpdate(id, version, content) =>
        id in s.plans.rows && CheckPlanUpdate(s.plans.rows[id].data, content).None? ==>
          Apply(s, Advance(tid, choice)) == s.Goto(tid, PlanUpdateChecked(id, version, content, s.plans.rows[id]))
      case PlanLock(id, version, target) =>
        id in s.plans.rows && CheckPlanLock(s.plans.rows[id].data, target).None? ==>
          Apply(s, Advance(tid, choice)) == s.Goto(tid, PlanLockChecked(id, version, s.plans.rows[id]))
      case _ => true
  {
    hide StepArea, StepRun, StepGap, CheckPlanUpdate, CheckPlanLock;
  }

  lemma PlanIsWritten(s: System, tid: nat, choice: Choice, id: nat, data: Plan)
    requires TablesComplete(s) && tid in s.tasks && id in s.plans.rows
    requires match s.tasks[tid]
      case PlanUpdateChecked(id', version, content, _) => id' == id
          && UpdatedPlan(s.plans.rows[id], version, content) == Some(data)
      case PlanLockChecked(id', version, _) => id' == id
          && MovedPlan(s.plans.rows[id], version, PlanDraft, PlanLocked) == Some(data)
      case _ => false
    ensures Apply(s, Advance(tid, choice))
         == s.(plans := s.plans.Commit(id, data, ""))
             .Goto(tid, PlanWritten(id, s.tasks[tid].planBefore, s.tasks[tid].version))
  {
    hide StepArea, StepRun, StepGap, UpdatedPlan, MovedPlan;
  }

  lemma UpdatingAPlan(s: System, tid: nat, id: nat, content: PlanContent)
    requires Inv(s) && TablesComplete(s) && tid !in s.tasks
    requires id in s.plans.rows && CheckPlanUpdate(s.plans.rows[id].data, content).None?
    ensures From(s, Undisturbed(tid, PlanUpdate(id, s.plans.rows[id].version, content)))
         == s.(plans := s.plans.Commit(id, s.plans.rows[id].data.(content := content), ""))
  {
    hide Inv, CheckPlanUpdate, Step;
    var row := s.plans.rows[id];
    var request := PlanUpdate(id, row.version, content);
    var c := Choice(0, []);
    FromFour(s, Arrive(tid, request), Advance(tid, c), Advance(tid, c), Abandon(tid));
    var s1 := s.Goto(tid, request);
    PlanIsRead(s1, tid, c);
    var s2 := s1.Goto(tid, PlanUpdateChecked(id, row.version, content, row));
    PlanIsWritten(s2, tid, c, id, row.data.(content := content));
    assert Apply(Apply(s1, Advance(tid, c)), Advance(tid, c)).Dropped(tid).tasks == s.tasks;
  }

  lemma LockingAPlan(s: System, tid: nat, id: nat)
    requires Inv(s) && TablesComplete(s) && tid !in s.tasks
    requires id in s.plans.rows && s.plans.rows[id].data.state == PlanDraft
    ensures From(s, Undisturbed(tid, PlanLock(id, s.plans.rows[id].version, PlanLocked)))
         == s.(plans := s.plans.Commit(id, s.plans.rows[id].data.(state := PlanLocked), ""))
  {
    hide Inv, Step;
    var row := s.plans.rows[id];
    var request := PlanLock(id, row.version, PlanLocked);
    var c := Choice(0, []);
    FromFour(s, Arrive(tid, request), Advance(tid, c), Advance(tid, c), Abandon(tid));
    var s1 := s.Goto(tid, request);
    PlanIsRead(s1, tid, c);
    var s2 := s1.Goto(tid, PlanLockChecked(id, row.version, row));
    PlanIsWritten(s2, tid, c, id, row.data.(state := PlanLocked));
    assert Apply(Apply(s1, Advance(tid, c)), Advance(tid, c)).Dropped(tid).tasks == s.tasks;
  }

  /** Updates can take a draft to any later version while all tasks in flight wait. */
  lemma {:induction false} PlanClimbs(s: System, id: nat, content: PlanContent, version: nat)
      returns (events: seq<Event>)
    requires Inv(s) && TablesComplete(s)
    requires id in s.plans.rows && CheckPlanUpdate(s.plans.rows[id].data, content).None?
      && s.plans.rows[id].version <= version
    ensures var later := From(s, events);
      later.tasks == s.tasks && id in later.plans.rows && later.plans.rows[id].version == version
          && later.plans.rows[id].data.state == PlanDraft
    decreases version - s.plans.rows[id].version
  {
    hide Inv, ValidLines;
    if s.plans.rows[id].version == version {
      events := [];
    } else {
      var tid := SomeNewTask(s.tasks);
      var first := Undisturbed(tid, PlanUpdate(id, s.plans.rows[id].version, content));
      UpdatingAPlan(s, tid, id, content);
      FromKeeps(s, first);
      var rest := PlanClimbs(From(s, first), id, content, version);
      events := first + rest;
      FromFrom(s, first, rest);
    }
  }

  /** An update that has read this draft is about to overwrite the plan, which is locked by now. */
  ghost predicate OverwritesLocked(s: System, tid: nat, id: nat, version: nat, content: PlanContent, read: Row<Plan>) {
    && tid in s.tasks && s.tasks[tid] == PlanUpdateChecked(id, version, content, read)
    && OnLockedPlan(s.plans.rows, id)
    && UpdatedPlan(s.plans.rows[id], version, content).Some?
  }

  /**
   An update that passes the guard on a draft can go on to overwrite the plan after it has been locked if and only if
   it expects a version above that of the row it reads.
   */
  lemma LockIsOvertakenIff(events: seq<Event>, tid: nat, id: nat, version: nat, content: PlanContent)
    requires var s := After(events);
      && tid in s.tasks && s.tasks[tid] == PlanUpdate(id, version, content)
      && id in s.plans.rows && CheckPlanUpdate(s.plans.rows[id].data, content).None?
    ensures (exists choice, more ::
        OverwritesLocked(After(events + [Advance(tid, choice)] + more), tid, id, version, content,
                         After(events).plans.rows[id]))
        <==> version > After(events).plans.rows[id].version
  {
    hide Inv, ValidLines, OverwritesLocked, Apply;
    var s := After(events);
    var row := s.plans.rows[id];
    if version > row.version {
      var more := OvertakesLock(events, tid, id, version, content);
      var choice := Choice(0, []);
      assert OverwritesLocked(After(events + [Advance(tid, choice)] + more), tid, id, version, content, row);
    } else {
      forall choice, more
        ensures !OverwritesLocked(After(events + [Advance(tid, choice)] + more), tid, id, version, content, row)
      {
        AlwaysSound(events + [Advance(tid, choice)] + more);
        LockIsNotOvertaken(After(events + [Advance(tid, choice)] + more), tid, id, version, content, row);
      }
    }
  }

  lemma LockIsNotOvertaken(s: System, tid: nat, id: nat, version: nat, content: PlanContent, read: Row<Plan>)
    requires Inv(s) && version <= read.version
    ensures !OverwritesLocked(s, tid, id, version, content, read)
  {
    hide Inv, SoundTables;
    if tid in s.tasks && s.tasks[tid] == PlanUpdateChecked(id, version, content, read) {
      InvParts(s);
      InvTask(s, tid);
      SeenPlan(s.plans, id, read);
    }
  }

  lemma ClimbAndLock(s: System, tid: nat, id: nat, version: nat, content: PlanContent, read: Row<Plan>)
      returns (more: seq<Event>)
    requires Inv(s) && TablesComplete(s) && tid in s.tasks
      && s.tasks[tid] == PlanUpdateChecked(id, version, content, read)
    requires id in s.plans.rows && CheckPlanUpdate(s.plans.rows[id].data, content).None?
      && version > s.plans.rows[id].version
    ensures OverwritesLocked(From(s, more), tid, id, version, content, read)
  {
    hide Inv, CheckPlanUpdate, Apply, From, Undisturbed;
    var climb := PlanClimbs(s, id, content, version - 1);
    var late := From(s, climb);
    FromKeeps(s, climb);
    var other := SomeNewTask(late.tasks);
    var lock := Undisturbed(other, PlanLock(id, version - 1, PlanLocked));
    LockingAPlan(late, other, id);
    more := climb + lock;
    FromFrom(s, climb, lock);
  }

  lemma OvertakesLock(events: seq<Event>, tid: nat, id: nat, version: nat, content: PlanContent)
      returns (more: seq<Event>)
    requires var s := After(events);
      && tid in s.tasks && s.tasks[tid] == PlanUpdate(id, version, content)
      && id in s.plans.rows && CheckPlanUpdate(s.plans.rows[id].data, content).None?
          && version > s.plans.rows[id].version
    ensures OverwritesLocked(After(events + [Advance(tid, Choice(0, []))] + more), tid, id, version, content,
                             After(events).plans.rows[id])
  {
    hide Inv, CheckPlanUpdate, Apply, From, OverwritesLocked;
    var s := After(events);
    var read := Advance(tid, Choice(0, []));
    assert (events + [read])[..|events|] == events;
    AlwaysSound(events + [read]);
    PlanIsRead(s, tid, Choice(0, []));
    more := ClimbAndLock(After(events + [read]), tid, id, version, content, s.plans.rows[id]);
    AfterFrom(events + [read], more);
  }

  // ---------- Areas ----------

  lemma AreaIsRead(s: System, tid: nat, choice: Choice)
    requires TablesComplete(s) && tid in s.tasks && s.tasks[tid].AreaUpdate?
    requires var t := s.tasks[tid]; t.id in s.areas.rows && CheckAreaUpdate(s.areas.rows[t.id].data, t.values).None?
    ensures var t := s.tasks[tid];
      Apply(s, Advance(tid, choice)) == s.Goto(tid, AreaUpdateChecked(t.id, t.version, t.values, s.areas.rows[t.id]))
  {
    hide StepPlan, StepRun, StepGap, CheckAreaUpdate;
  }

  lemma AreaIsWritten(s: System, tid: nat, choice: Choice, data: Area)
    requires TablesComplete(s) && tid in s.tasks && s.tasks[tid].AreaUpdateChecked?
    requires var t := s.tasks[tid];
      t.id in s.areas.rows
      && UpdatedArea(s.areas.rows[t.id], t.version, t.values) == Some(data)
    ensures var t := s.tasks[tid];
      Apply(s, Advance(tid, choice))
        == s.(areas := s.areas.Commit(t.id, data, "")).Goto(tid, AreaWritten(t.id, t.areaBefore, t.version))
  {
    hide StepPlan, StepRun, StepGap, UpdatedArea;
  }

  lemma UpdatingAnArea(s: System, tid: nat, id: nat, values: AreaValues)
    requires Inv(s) && TablesComplete(s) && tid !in s.tasks
    requires id in s.areas.rows && CheckAreaUpdate(s.areas.rows[id].data, values).None?
    ensures From(s, Undisturbed(tid, AreaUpdate(id, s.areas.rows[id].version, values)))
         == s.(areas := s.areas.Commit(id, s.areas.rows[id].data.(values := values), ""))
  {
    hide Inv, CheckAreaUpdate, Step;
    var row := s.areas.rows[id];
    var request := AreaUpdate(id, row.version, values);
    var c := Choice(0, []);
    FromFour(s, Arrive(tid, request), Advance(tid, c), Advance(tid, c), Abandon(tid));
    var s1 := s.Goto(tid, request);
    AreaIsRead(s1, tid, c);
    var s2 := s1.Goto(tid, AreaUpdateChecked(id, row.version, values, row));
    AreaIsWritten(s2, tid, c, row.data.(values := values));
    assert Apply(Apply(s1, Advance(tid, c)), Advance(tid, c)).Dropped(tid).tasks == s.tasks;
  }

  lemma {:induction false} AreaClimbs(s: System, id: nat, values: AreaValues, version: nat) returns (events: seq<Event>)
    requires Inv(s) && TablesComplete(s) && values.status != AreaArchived
    requires id in s.areas.rows && CheckAreaUpdate(s.areas.rows[id].data, values).None?
      && s.areas.rows[id].version <= version
    ensures var later := From(s, events);
      && later.tasks == s.tasks && id in later.areas.rows && later.areas.rows[id].version == version
      && later.areas.rows[id].data.values.status != AreaArchived
    decreases version - s.areas.rows[id].version
  {
    hide Inv, ValidBoundary;
    if s.areas.rows[id].version == version {
      events := [];
    } else {
      var tid := SomeNewTask(s.tasks);
      var first := Undisturbed(tid, AreaUpdate(id, s.areas.rows[id].version, values));
      UpdatingAnArea(s, tid, id, values);
      FromKeeps(s, first);
      var rest := AreaClimbs(From(s, first), id, values, version);
      events := first + rest;
      FromFrom(s, first, rest);
    }
  }

  /** An update that has read this row is about to overwrite the area, which is archived by now. */
  ghost predicate OverwritesArchived(s: System, tid: nat, id: nat, version: nat, values: AreaValues, read: Row<Area>) {
    && tid in s.tasks && s.tasks[tid] == AreaUpdateChecked(id, version, values, read)
    && id in s.areas.rows && s.areas.rows[id].data.values.status == AreaArchived
    && UpdatedArea(s.areas.rows[id], version, values).Some?
  }

  /**
   The same for areas: an update can overwrite an archived area if and only if it expects a version it has not read.
   */
  lemma ArchiveIsOvertakenIff(events: seq<Event>, tid: nat, id: nat, version: nat, values: AreaValues)
    requires var s := After(events);
      && tid in s.tasks && s.tasks[tid] == AreaUpdate(id, version, values)
      && id in s.areas.rows && CheckAreaUpdate(s.areas.rows[id].data, values).None?
    ensures (exists choice, more ::
        OverwritesArchived(After(events + [Advance(tid, choice)] + more), tid, id, version, values,
                           After(events).areas.rows[id]))
        <==> version > After(events).areas.rows[id].version
  {
    hide Inv, ValidBoundary, OverwritesArchived, Apply;
    var s := After(events);
    var row := s.areas.rows[id];
    if version > row.version {
      var more := OvertakesArchive(events, tid, id, version, values);
      var choice := Choice(0, []);
      assert OverwritesArchived(After(events + [Advance(tid, choice)] + more), tid, id, version, values, row);
    } else {
      forall choice, more
        ensures !OverwritesArchived(After(events + [Advance(tid, choice)] + more), tid, id, version, values, row)
      {
        AlwaysSound(events + [Advance(tid, choice)] + more);
        ArchiveIsNotOvertaken(After(events + [Advance(tid, choice)] + more), tid, id, version, values, row);
      }
    }
  }

  lemma ArchiveIsNotOvertaken(s: System, tid: nat, id: nat, version: nat, values: AreaValues, read: Row<Area>)
    requires Inv(s) && version <= read.version
    ensures !OverwritesArchived(s, tid, id, version, values, read)
  {
    hide Inv, SoundTables;
    if tid in s.tasks && s.tasks[tid] == AreaUpdateChecked(id, version, values, read) {
      InvParts(s);
      InvTask(s, tid);
      SeenArea(s.areas, id, read);
    }
  }

  lemma ClimbAndArchive(s: System, tid: nat, id: nat, version: nat, values: AreaValues, read: Row<Area>)
      returns (more: seq<Event>)
    requires Inv(s) && TablesComplete(s) && tid in s.tasks
      && s.tasks[tid] == AreaUpdateChecked(id, version, values, read)
    requires id in s.areas.rows && CheckAreaUpdate(s.areas.rows[id].data, values).None?
      && version > s.areas.rows[id].version
    ensures OverwritesArchived(From(s, more), tid, id, version, values, read)
  {
    hide Inv, ValidBoundary, Apply, From, Undisturbed;
    var climb := AreaClimbs(s, id, values.(status := AreaActive), version - 1);
    var late := From(s, climb);
    FromKeeps(s, climb);
    var other := SomeNewTask(late.tasks);
    var archive := Undisturbed(other, AreaUpdate(id, version - 1, values.(status := AreaArchived)));
    UpdatingAnArea(late, other, id, values.(status := AreaArchived));
    more := climb + archive;
    FromFrom(s, climb, archive);
  }

  lemma OvertakesArchive(events: seq<Event>, tid: nat, id: nat, version: nat, values: AreaValues)
      returns (more: seq<Event>)
    requires var s := After(events);
      && tid in s.tasks && s.tasks[tid] == AreaUpdate(id, version, values)
      && id in s.areas.rows && CheckAreaUpdate(s.areas.rows[id].data, values).None?
          && version > s.areas.rows[id].version
    ensures OverwritesArchived(After(events + [Advance(tid, Choice(0, []))] + more), tid, id, version, values,
                               After(events).areas.rows[id])
  {
    hide Inv, CheckAreaUpdate, Apply, From, OverwritesArchived;
    var s := After(events);
    var read := Advance(tid, Choice(0, []));
    assert (events + [read])[..|events|] == events;
    AlwaysSound(events + [read]);
    AreaIsRead(s, tid, Choice(0, []));
    more := ClimbAndArchive(After(events + [read]), tid, id, version, values, s.areas.rows[id]);
    AfterFrom(events + [read], more);
  }
}
