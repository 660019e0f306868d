/** No two audit events describe the same update. */
module DistinctWrites {
  import opened Wrappers
  import opened Coverage
  import opened Checksums
  import opened Tables
  import opened Records
  import opened Workflow
  import opened Invariant
  import opened Reachability
  import opened Growth
  import RunSteps
  import GapSteps

  /** An update, by its row and the version it replaced. */
  datatype Update = Update(key: Key, version: nat)

  function UpdateOf(audit: Audit): Option<Update> {
    match audit
    case AreaChanged(id, _, _, expected) => Some(Update(AreaKey(id), expected))
    case PlanChanged(id, _, _, expected) => Some(Update(PlanKey(id), expected))
    case RunChanged(id, before, _) => Some(Update(RunKey(id), before.version))
    case GapChanged(id, before, _) => Some(Update(GapKey(id), before.version))
    case _ => None
  }

  /** The update that a request has made and not yet logged. */
  function Unlogged(task: Task): Option<Update> {
    match task
    case AreaWritten(id, _, expected) => Some(Update(AreaKey(id), expected))
    case PlanWritten(id, _, expected) => Some(Update(PlanKey(id), expected))
    case RunWritten(id, before) => Some(Update(RunKey(id), before.version))
    case GapWritten(id, before) => Some(Update(GapKey(id), before.version))
    case Auditing(audit) => UpdateOf(audit)
    case _ => None
  }

  /** Who knows of an update: a request in flight or an event in the log. */
  datatype Holder = InFlight(tid: nat) | Logged(n: nat)

  ghost function Held(s: System, h: Holder): Option<Update> {
    match h
    case InFlight(tid) => if tid in s.tasks then Unlogged(s.tasks[tid]) else None
    case Logged(n) => if n < |s.audits| then UpdateOf(s.audits[n]) else None
  }

  /** Every update known has been made, and nobody else knows of it. */
  ghost predicate HeldOnce(s: System) {
    && (forall h | Held(s, h).Some? ::
        Stored(s, Held(s, h).value.key) && Held(s, h).value.version < VersionOf(s, Held(s, h).value.key))
    && (forall h, k | Held(s, h).Some? && Held(s, h) == Held(s, k) :: h == k)
  }

  // ---------- One step ----------

  /** What a step of a request may do to the updates known: it keeps its own, drops it, or makes a new one. */
  ghost predicate HandsOn(s: System, later: System, tid: nat)
    requires tid in s.tasks
  {
    && later.audits == s.audits
    && (forall t | t in later.tasks && t != tid :: t in s.tasks && later.tasks[t] == s.tasks[t])
    && (tid in later.tasks ==> OwnUpdate(s, tid, Unlogged(later.tasks[tid])))
  }

  ghost predicate OwnUpdate(s: System, tid: nat, update: Option<Update>)
    requires tid in s.tasks
  {
    || update.None?
    || update == Unlogged(s.tasks[tid])
    || TaskWrites(s, s.tasks[tid], update.value.key, update.value.version)
  }

  lemma Hands(s: System, tid: nat)
    requires tid in s.tasks
    ensures HandsOn(s, s, tid)
    ensures forall reply :: HandsOn(s, s.Done(tid, reply), tid)
    ensures forall written: System, task: Task |
      written.tasks == s.tasks && written.audits == s.audits && OwnUpdate(s, tid, Unlogged(task)) ::
        HandsOn(s, written.Goto(tid, task), tid)
  {
    hide TaskWrites;
  }

  lemma OwnUpdates(s: System, tid: nat)
    requires tid in s.tasks
    ensures OwnUpdate(s, tid, None) && OwnUpdate(s, tid, Unlogged(s.tasks[tid]))
    ensures match s.tasks[tid]
      case AreaUpdateChecked(id, version, values, _) =>
        id in s.areas.rows && UpdatedArea(s.areas.rows[id], version, values).Some? ==>
          OwnUpdate(s, tid, Some(Update(AreaKey(id), version)))
      case PlanUpdateChecked(id, version, content, _) =>
        id in s.plans.rows && UpdatedPlan(s.plans.rows[id], version, content).Some? ==>
          OwnUpdate(s, tid, Some(Update(PlanKey(id), version)))
      case PlanLockChecked(id, version, _) =>
        id in s.plans.rows && MovedPlan(s.plans.rows[id], version, PlanDraft, PlanLocked).Some? ==>
          OwnUpdate(s, tid, Some(Update(PlanKey(id), version)))
      case RunMoveChecked(id, version, target, before) =>
        id in s.runs.rows && MovedRun(s.runs.rows[id], version, before.data.state, target).Some? ==>
          OwnUpdate(s, tid, Some(Update(RunKey(id), version)))
      case GapMoveChecked(id, version, target, note, before) =>
        id in s.gaps.rows && MovedGap(s.gaps.rows[id], version, before.data.state, target,
                                      Annotated(before.data.explanation, note)).Some? ==>
          OwnUpdate(s, tid, Some(Update(GapKey(id), version)))
      case _ => true
  {
    hide UpdatedArea, UpdatedPlan, MovedPlan, MovedRun, MovedGap, Annotated;
  }

  lemma AreaHandsOn(s: System, tid: nat, choice: Choice)
    requires TablesComplete(s) && tid in s.tasks
    ensures HandsOn(s, StepArea(s, tid, s.tasks[tid], choice), tid)
  {
    hide ValidBoundary, CodeTaken, CheckAreaUpdate, UpdatedArea, HandsOn;
    hide OwnUpdate;
    Hands(s, tid);
    OwnUpdates(s, tid);
  }

  lemma PlanHandsOn(s: System, tid: nat, choice: Choice)
    requires TablesComplete(s) && tid in s.tasks
    ensures HandsOn(s, StepPlan(s, tid, s.tasks[tid], choice), tid)
  {
    hide TablesComplete, Table.Insert, Table.Commit, ValidLines, CheckPlanUpdate, CheckPlanLock, UpdatedPlan, MovedPlan,
        CopiedPlan, OwnUpdate, HandsOn;
    Hands(s, tid);
    OwnUpdates(s, tid);
  }

  lemma RunHandsOn(s: System, tid: nat, choice: Choice)
    requires Inv(s) && TablesComplete(s) && tid in s.tasks
    ensures HandsOn(s, StepRun(s, tid, s.tasks[tid], choice), tid)
  {
    hide Inv, TablesComplete, Table.Insert, Table.Commit, RunTaken, ChecksumTaken, RunWith, Payload, ImportedRun,
        CheckImport, CheckRunMove, OwnUpdate, HandsOn;
    Hands(s, tid);
    OwnUpdates(s, tid);
    if s.tasks[tid].RunMoveChecked? {
      RunSteps.RunMoveMatches(s, tid);
    }
  }

  lemma ReviewHandsOn(s: System, tid: nat, choice: Choice)
    requires Inv(s) && TablesComplete(s) && tid in s.tasks && s.tasks[tid].GapMoveChecked?
    ensures HandsOn(s, StepGap(s, tid, s.tasks[tid], choice), tid)
  {
    hide Inv, Outcome, HashTaken, HashOf, GapWith, CheckSources, UniqueIds, Annotated, IsAnswer, AllIn, CheckGapMove,
        PlanIdsOf, RowsOf, DataOf, TracksOf, ChosenResolution, DetectedGap, OwnUpdate, HandsOn;
    Hands(s, tid);
    OwnUpdates(s, tid);
    GapSteps.GapMoveMatches(s, tid);
  }

  lemma OtherGapHandsOn(s: System, tid: nat, choice: Choice)
    requires TablesComplete(s) && tid in s.tasks && !s.tasks[tid].GapMoveChecked?
    ensures HandsOn(s, StepGap(s, tid, s.tasks[tid], choice), tid)
  {
    hide TablesComplete, Table.Insert, Table.Commit, Outcome, HashTaken, HashOf, GapWith, CheckSources, UniqueIds,
        Annotated, IsAnswer, AllIn, CheckGapMove, PlanIdsOf, RowsOf, DataOf, TracksOf, ChosenResolution, DetectedGap,
        MovedGap, OwnUpdate, HandsOn;
    Hands(s, tid);
    OwnUpdates(s, tid);
  }

  lemma RequestHandsOn(s: System, tid: nat, choice: Choice)
    requires Inv(s) && TablesComplete(s) && tid in s.tasks && !s.tasks[tid].Auditing?
    ensures HandsOn(s, Step(s, tid, choice), tid)
  {
    hide Inv, StepArea, StepPlan, StepRun, StepGap, HandsOn;
    AreaHandsOn(s, tid, choice);
    PlanHandsOn(s, tid, choice);
    RunHandsOn(s, tid, choice);
    if s.tasks[tid].GapMoveChecked? {
      ReviewHandsOn(s, tid, choice);
    } else {
      OtherGapHandsOn(s, tid, choice);
    }
  }

  // ---------- Whole runs ----------

  /** Rows written stay written: an update known before the step has been made after it. */
  lemma UpdatesStayMade(s: System, e: Event)
    requires TablesComplete(s) && HeldOnce(s)
    ensures var later := Apply(s, e);
      forall h | Held(s, h).Some? ::
        Stored(later, Held(s, h).value.key) && Held(s, h).value.version < VersionOf(later, Held(s, h).value.key)
  {
    hide Apply, Held, Succeeds;
    forall h | Held(s, h).Some?
      ensures Stored(Apply(s, e), Held(s, h).value.key)
      ensures Held(s, h).value.version < VersionOf(Apply(s, e), Held(s, h).value.key)
    {
      var key := Held(s, h).value.key;
      RowChangesOnlyByItsWrite(s, e, key);
      if SameRow(s, Apply(s, e), key) {
        SameRowSameVersion(s, Apply(s, e), key);
      }
    }
  }

  /** A step that logs nothing. */
  lemma HandingOnKeeps(s: System, tid: nat, choice: Choice)
    requires TablesComplete(s) && HeldOnce(s) && tid in s.tasks
    requires HandsOn(s, Step(s, tid, choice), tid)
    ensures HeldOnce(Step(s, tid, choice))
  {
    hide Step, TaskWrites, Stored, VersionOf, Unlogged, UpdateOf;
    var later := Step(s, tid, choice);
    UpdatesStayMade(s, Advance(tid, choice));
    var own := Held(later, InFlight(tid));
    if own.Some? && own != Held(s, InFlight(tid)) {
      NewUpdateIsMade(s, tid, choice, own.value);
    }
    forall h | Held(later, h).Some? && h != InFlight(tid)
      ensures Held(later, h) == Held(s, h)
    {
    }
  }

  /** A new update replaces the present version, so it is none of those known. */
  lemma NewUpdateIsMade(s: System, tid: nat, choice: Choice, update: Update)
    requires TablesComplete(s) && HeldOnce(s) && tid in s.tasks
      && TaskWrites(s, s.tasks[tid], update.key, update.version)
    ensures var later := Step(s, tid, choice);
      Stored(later, update.key) && update.version < VersionOf(later, update.key)
    ensures forall h :: Held(s, h) != Some(update)
  {
    hide Step, TaskWrites, Held;
    var e := Advance(tid, choice);
    SuccessMeetsVersion(s, e, update.key, update.version);
    RowChangesOnlyByItsWrite(s, e, update.key);
  }

  lemma LoggingKeeps(s: System, tid: nat, choice: Choice)
    requires TablesComplete(s) && HeldOnce(s) && tid in s.tasks && s.tasks[tid].Auditing?
    ensures HeldOnce(Step(s, tid, choice))
  {
    hide StepArea, StepPlan, StepRun, StepGap, Stored, VersionOf, UpdateOf;
    var later := Step(s, tid, choice);
    UpdatesStayMade(s, Advance(tid, choice));
    forall h | Held(later, h).Some?
      ensures Held(later, h) == Held(s, if h == Logged(|s.audits|) then InFlight(tid) else h)
      ensures h != InFlight(tid)
    {
    }
  }

  lemma ArrivalKeeps(s: System, tid: nat, task: Task)
    requires HeldOnce(s) && tid !in s.tasks && task.IsRequest()
    ensures HeldOnce(s.Goto(tid, task))
  {
    hide Stored, VersionOf, UpdateOf;
    var later := s.Goto(tid, task);
    forall h | Held(later, h).Some?
      ensures Held(later, h) == Held(s, h)
    {
    }
    SameVersions(s, later);
  }

  lemma AbandonKeeps(s: System, tid: nat)
    requires HeldOnce(s)
    ensures HeldOnce(s.Dropped(tid))
  {
    hide Stored, VersionOf, UpdateOf;
    var later := s.Dropped(tid);
    forall h | Held(later, h).Some?
      ensures Held(later, h) == Held(s, h)
    {
    }
    SameVersions(s, later);
  }

  lemma SameVersions(s: System, later: System)
    requires later.areas == s.areas && later.plans == s.plans && later.runs == s.runs && later.gaps == s.gaps
    ensures forall key | Stored(s, key) :: Stored(later, key) && VersionOf(later, key) == VersionOf(s, key)
  {
  }

  lemma {:induction false} AlwaysHeldOnce(events: seq<Event>)
    ensures HeldOnce(After(events))
  {
    hide Inv, Step, HeldOnce, HandsOn;
    if events == [] {
      NothingHeld();
    } else {
      var s, e := After(events[..|events| - 1]), events[|events| - 1];
      AlwaysHeldOnce(events[..|events| - 1]);
      AlwaysSound(events[..|events| - 1]);
      match e
      case Arrive(tid, task) =>
        if tid !in s.tasks && task.IsRequest() {
          ArrivalKeeps(s, tid, task);
        }
      case Abandon(tid) =>
        AbandonKeeps(s, tid);
      case Advance(tid, choice) =>
        if tid in s.tasks {
          if s.tasks[tid].Auditing? {
            LoggingKeeps(s, tid, choice);
          } else {
            RequestHandsOn(s, tid, choice);
            HandingOnKeeps(s, tid, choice);
          }
        }
    }
  }

  lemma NothingHeld()
    ensures HeldOnce(Start())
  {
  }

  /** After every run: two audit events of updates describe different writes. */
  lemma EachUpdateIsLoggedOnce(events: seq<Event>, i: nat, j: nat)
    requires i < |After(events).audits| && j < |After(events).audits|
    requires UpdateOf(After(events).audits[i]).Some?
    requires UpdateOf(After(events).audits[i]) == UpdateOf(After(events).audits[j])
    ensures i == j
  {
    hide Apply, Stored, VersionOf, UpdateOf;
    AlwaysHeldOnce(events);
    assert Held(After(events), Logged(i)) == Held(After(events), Logged(j));
  }
}
