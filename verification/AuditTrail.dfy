/** What the audit log says about the writes: which row each event's snapshot shows, and that no write appears twice. */
module AuditTrail {
  import opened Wrappers
  import opened Coverage
  import opened Tables
  import opened Records
  import opened Evolution
  import opened Workflow
  import opened Invariant
  import opened Reachability
  import opened Growth
  import opened Overtaking

  // ---------- Snapshots ----------

  /** The update that expected this version replaced this row. */
  ghost predicate Replaces<R>(t: Table<R>, id: nat, row: Row<R>, version: nat) {
    && id in t.edits
    && exists i :: 0 <= i < |t.edits[id]| && t.edits[id][i].before.version == version && t.edits[id][i].before == row
  }

  lemma ReplacesIff<R>(t: Table<R>, id: nat, before: Row<R>, version: nat)
    requires t.WellKept() && Written(t, id, before, version)
    ensures Replaces(t, id, before, version) <==> before.version == version
  {
    var i :| 0 <= i < |t.edits[id]| && t.edits[id][i].before.version == version;
    SnapshotIsReplacedIff(t, id, before, version, i);
  }

  /** The snapshot before is the row that the described update replaced. */
  ghost predicate SnapshotIsExact(s: System, audit: Audit) {
    match audit
    case AreaChanged(id, before, _, expected) => Replaces(s.areas, id, before, expected)
    case PlanChanged(id, before, _, expected) => Replaces(s.plans, id, before, expected)
    case RunChanged(id, before, _) => Replaces(s.runs, id, before, before.version)
    case GapChanged(id, before, _) => Replaces(s.gaps, id, before, before.version)
    case _ => true
  }

  /** What an audit event shows is enough to tell: the version of its snapshot and the version the request expected. */
  predicate ExpectedItsSnapshot(audit: Audit) {
    match audit
    case AreaChanged(_, before, _, expected) => before.version == expected
    case PlanChanged(_, before, _, expected) => before.version == expected
    case _ => true
  }

  /**
   Every audit event follows a committed write, and its snapshot before is the row that this write replaced exactly
   when the request expected the snapshot's version; for runs and gaps it always is.
   */
  lemma AuditsMatchWrites(events: seq<Event>, n: nat)
    requires n < |After(events).audits|
    ensures var s := After(events);
      AuditOk(s, s.audits[n]) && (SnapshotIsExact(s, s.audits[n]) <==> ExpectedItsSnapshot(s.audits[n]))
  {
    hide Inv, Apply, AuditOk, SnapshotIsExact, ExpectedItsSnapshot;
    var s := After(events);
    AlwaysSound(events);
    InvParts(s);
    LoggedIsOk(s, n);
    OkIsExactIff(s, s.audits[n]);
  }

  lemma LoggedIsOk(s: System, n: nat)
    requires Inv(s) && n < |s.audits|
    ensures AuditOk(s, s.audits[n])
  {
    hide SoundTables, TaskOk, AuditOk;
  }

  lemma OkIsExactIff(s: System, audit: Audit)
    requires AuditOk(s, audit)
    requires s.areas.WellKept() && s.plans.WellKept() && s.runs.WellKept() && s.gaps.WellKept()
    ensures SnapshotIsExact(s, audit) <==> ExpectedItsSnapshot(audit)
  {
    hide Replaces, Table.WellKept, Seen, Wrote;
    match audit
    case AreaChanged(id, before, _, expected) => ReplacesIff(s.areas, id, before, expected);
    case PlanChanged(id, before, _, expected) => ReplacesIff(s.plans, id, before, expected);
    case RunChanged(id, before, _) => ReplacesIff(s.runs, id, before, before.version);
    case GapChanged(id, before, _) => ReplacesIff(s.gaps, id, before, before.version);
    case _ =>
  }

  /**
   When a conditional update of a plan or an area matches, it replaces the row that was read iff it expected its
   version.
   */
  lemma WriteReplacesReadIff(s: System, tid: nat)
    requires Inv(s) && tid in s.tasks
    ensures match s.tasks[tid]
      case AreaUpdateChecked(id, version, values, before) =>
        id in s.areas.rows && UpdatedArea(s.areas.rows[id], version, values).Some? ==>
          (s.areas.rows[id] == before <==> version == before.version)
      case PlanUpdateChecked(id, version, content, before) =>
        id in s.plans.rows && UpdatedPlan(s.plans.rows[id], version, content).Some? ==>
          (s.plans.rows[id] == before <==> version == before.version)
      case PlanLockChecked(id, version, before) =>
        id in s.plans.rows && MovedPlan(s.plans.rows[id], version, PlanDraft, PlanLocked).Some? ==>
          (s.plans.rows[id] == before <==> version == before.version)
      case _ => true
  {
    hide Inv, SoundTables;
    InvParts(s);
    InvTask(s, tid);
    match s.tasks[tid]
    case AreaUpdateChecked(id, _, _, before) => SeenArea(s.areas, id, before);
    case PlanUpdateChecked(id, _, _, before) => SeenPlan(s.plans, id, before);
    case PlanLockChecked(id, _, before) => SeenPlan(s.plans, id, before);
    case _ =>
  }
}
