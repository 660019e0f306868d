/**
 The repositories: one object per table, whose methods are single database statements that update the rows in place.
 */
module Repositories {
  import opened Collections
  import opened Wrappers
  import opened States
  import opened Checksums
  import opened Tables
  import opened Records
  import opened Workflow

  /** What a conditional update leaves of the rows: one row replaced at the next version, or nothing changed. */
  function Replace<R>(rows: map<nat, Row<R>>, id: nat, data: Option<R>): map<nat, Row<R>>
    requires data.Some? ==> id in rows
  {
    match data
    case None => rows
    case Some(d) => rows[id := Row(rows[id].version + 1, d)]
  }

  ghost predicate Below<R>(rows: map<nat, Row<R>>, nextId: nat) {
    forall id | id in rows :: id < nextId
  }

  class SurveyAreaRepository {
    var rows: map<nat, Row<Area>>
    var nextId: nat

    ghost predicate Valid()
      reads this
    {
      Below(rows, nextId)
    }

    constructor ()
      ensures Valid() && rows == map[]
    {
      rows, nextId := map[], 1;
    }

    method Get(id: nat) returns (r: Result<Row<Area>, ServiceError>)
      ensures r == if id in rows then Ok(rows[id]) else Err(NotFound)
    {
      r := if id in rows then Ok(rows[id]) else Err(NotFound);
    }

    /** Inserts unless the code is taken. */
    method Create(area: Area) returns (r: Result<nat, ServiceError>)
      requires Valid()
      modifies this
      ensures Valid()
      ensures CodeTaken(old(rows), area.code) ==> r == Err(Duplicate) && rows == old(rows)
      ensures !CodeTaken(old(rows), area.code) ==>
        r == Ok(old(nextId)) && old(nextId) !in old(rows) && rows == old(rows)[old(nextId) := Row(1, area)]
    {
      if exists id | id in rows :: rows[id].data.code == area.code {
        return Err(Duplicate);
      }
      rows := rows[nextId := Row(1, area)];
      r := Ok(nextId);
      nextId := nextId + 1;
    }

    /** Matches on id and version only. */
    method Update(id: nat, version: nat, values: AreaValues) returns (r: Result<Row<Area>, ServiceError>)
      requires Valid()
      modifies this`rows
      ensures Valid()
      ensures var data := if id in old(rows) then UpdatedArea(old(rows)[id], version, values) else None;
        && rows == Replace(old(rows), id, data)
        && r == if data.Some? then Ok(rows[id]) else Err(VersionConflict)
    {
      if id !in rows || rows[id].version != version {
        return Err(VersionConflict);
      }
      rows := rows[id := Row(version + 1, rows[id].data.(values := values))];
      r := Get(id);
    }
  }

  class TransectPlanRepository {
    var rows: map<nat, Row<Plan>>
    var nextId: nat

    ghost predicate Valid()
      reads this
    {
      Below(rows, nextId)
    }

    constructor ()
      ensures Valid() && rows == map[]
    {
      rows, nextId := map[], 1;
    }

    method Get(id: nat) returns (r: Result<Row<Plan>, ServiceError>)
      ensures r == if id in rows then Ok(rows[id]) else Err(NotFound)
    {
      r := if id in rows then Ok(rows[id]) else Err(NotFound);
    }

    /** Matches on id and version only: a plan locked in the meantime is not noticed. */
    method Update(id: nat, version: nat, content: PlanContent) returns (r: Result<Row<Plan>, ServiceError>)
      requires Valid()
      modifies this`rows
      ensures Valid()
      ensures var data := if id in old(rows) then UpdatedPlan(old(rows)[id], version, content) else None;
        && rows == Replace(old(rows), id, data)
        && r == if data.Some? then Ok(rows[id]) else Err(VersionConflict)
    {
      if id !in rows || rows[id].version != version {
        return Err(VersionConflict);
      }
      rows := rows[id := Row(version + 1, rows[id].data.(content := content))];
      r := Get(id);
    }

    /** Matches on id, version and state. */
    method Transition(id: nat, version: nat, from: PlanState, to: PlanState)
        returns (r: Result<Row<Plan>, ServiceError>)
      requires Valid()
      modifies this`rows
      ensures Valid()
      ensures var data := if id in old(rows) then MovedPlan(old(rows)[id], version, from, to) else None;
        && rows == Replace(old(rows), id, data)
        && r == if data.Some? then Ok(rows[id]) else Err(VersionConflict)
    {
      if id !in rows || rows[id].version != version || rows[id].data.state != from {
        return Err(VersionConflict);
      }
      rows := rows[id := Row(version + 1, rows[id].data.(state := to))];
      r := Get(id);
    }

    /** Adds a draft with the source's content under a new id; the source itself stays. */
    method Copy(source: Row<Plan>) returns (id: nat, copy: Row<Plan>)
      requires Valid()
      modifies this
      ensures Valid()
      ensures id == old(nextId) && id !in old(rows) && copy == CopiedPlan(source) && rows == old(rows)[id := copy]
    {
      var content := source.data.content.(name := source.data.content.name + COPY_SUFFIX);
      copy := source.(data := source.data.(content := content));
      copy := copy.(data := copy.data.(state := PlanDraft));
      copy := copy.(version := source.version + 1);
      id := nextId;
      rows := rows[id := copy];
      nextId := nextId + 1;
    }
  }

  class SonarRunRepository {
    var rows: map<nat, Row<Run>>
    var nextId: nat

    ghost predicate Valid()
      reads this
    {
      Below(rows, nextId)
    }

    constructor ()
      ensures Valid() && rows == map[]
    {
      rows, nextId := map[], 1;
    }

    method Get(id: nat) returns (r: Result<Row<Run>, ServiceError>)
      ensures r == if id in rows then Ok(rows[id]) else Err(NotFound)
    {
      r := if id in rows then Ok(rows[id]) else Err(NotFound);
    }

    /** The rows with these ids, each once, however often its id is listed; ids without a row are passed over. */
    method ByIDs(ids: seq<nat>) returns (order: seq<nat>, found: seq<Row<Run>>)
      requires Valid()
      ensures IsAnswer(order, ids, rows)
      ensures found == RowsOf(rows, order)
    {
      order, found := [], [];
      for id := 0 to nextId
        invariant forall k | k in order :: k < id && k in rows
        invariant NoDuplicates(order)
        invariant forall k | k < id :: k in order <==> k in ids && k in rows
        invariant found == RowsOf(rows, order)
      {
        if id in rows && id in ids {
          assert (order + [id])[..|order|] == order;
          order := order + [id];
          found := found + [rows[id]];
        }
      }
    }

    method ByChecksum(checksum: string) returns (r: Result<Row<Run>, ServiceError>)
      ensures r.Ok? <==> ChecksumTaken(rows, checksum)
      ensures r.Ok? ==> exists id :: id in rows && rows[id] == r.value && r.value.data.checksum == checksum
      ensures r.Err? ==> r.error == NotFound
    {
      if id :| id in rows && rows[id].data.checksum == checksum {
        return Ok(rows[id]);
      }
      return Err(NotFound);
    }

    /** Inserts unless the code or the checksum is taken. */
    method Create(run: Run) returns (r: Result<nat, ServiceError>)
      requires Valid()
      modifies this
      ensures Valid()
      ensures RunTaken(old(rows), run) ==> r == Err(Duplicate) && rows == old(rows)
      ensures !RunTaken(old(rows), run)
        ==> r == Ok(old(nextId)) && old(nextId) !in old(rows) && rows == old(rows)[old(nextId) := Row(1, run)]
    {
      if exists id | id in rows :: rows[id].data.code == run.code || rows[id].data.checksum == run.checksum {
        return Err(Duplicate);
      }
      rows := rows[nextId := Row(1, run)];
      r := Ok(nextId);
      nextId := nextId + 1;
    }

    /** Matches on id, version and state. */
    method Transition(id: nat, version: nat, from: RunState, to: RunState) returns (r: Result<Row<Run>, ServiceError>)
      requires Valid()
      modifies this`rows
      ensures Valid()
      ensures var data := if id in old(rows) then MovedRun(old(rows)[id], version, from, to) else None;
        && rows == Replace(old(rows), id, data)
        && r == if data.Some? then Ok(rows[id]) else Err(VersionConflict)
    {
      if id !in rows || rows[id].version != version || rows[id].data.state != from {
        return Err(VersionConflict);
      }
      rows := rows[id := Row(version + 1, rows[id].data.(state := to))];
      r := Get(id);
    }
  }

  class CoverageGapRepository {
    var rows: map<nat, Row<Gap>>
    var nextId: nat

    ghost predicate Valid()
      reads this
    {
      Below(rows, nextId)
    }

    constructor ()
      ensures Valid() && rows == map[]
    {
      rows, nextId := map[], 1;
    }

    method Get(id: nat) returns (r: Result<Row<Gap>, ServiceError>)
      ensures r == if id in rows then Ok(rows[id]) else Err(NotFound)
    {
      r := if id in rows then Ok(rows[id]) else Err(NotFound);
    }

    method ByInputHash(hash: InputHash) returns (r: Result<Row<Gap>, ServiceError>)
      ensures r.Ok? <==> HashTaken(rows, hash)
      ensures r.Ok? ==> exists id :: id in rows && rows[id] == r.value && r.value.data.hash == hash
      ensures r.Err? ==> r.error == NotFound
    {
      if id :| id in rows && rows[id].data.hash == hash {
        return Ok(rows[id]);
      }
      return Err(NotFound);
    }

    /** Inserts unless the input hash is taken. */
    method Create(gap: Gap) returns (r: Result<nat, ServiceError>)
      requires Valid()
      modifies this
      ensures Valid()
      ensures HashTaken(old(rows), gap.hash) ==> r == Err(Duplicate) && rows == old(rows)
      ensures !HashTaken(old(rows), gap.hash) ==>
        r == Ok(old(nextId)) && old(nextId) !in old(rows) && rows == old(rows)[old(nextId) := Row(1, gap)]
    {
      if exists id | id in rows :: rows[id].data.hash == gap.hash {
        return Err(Duplicate);
      }
      rows := rows[nextId := Row(1, gap)];
      r := Ok(nextId);
      nextId := nextId + 1;
    }

    /** Matches on id, version and state; sets the state and the whole explanation. */
    method Transition(id: nat, version: nat, from: GapState, to: GapState, explanation: string)
      returns (r: Result<Row<Gap>, ServiceError>)
      requires Valid()
      modifies this`rows
      ensures Valid()
      ensures var data := if id in old(rows) then MovedGap(old(rows)[id], version, from, to, explanation) else None;
        && rows == Replace(old(rows), id, data)
        && r == if data.Some? then Ok(rows[id]) else Err(VersionConflict)
    {
      if id !in rows || rows[id].version != version || rows[id].data.state != from {
        return Err(VersionConflict);
      }
      rows := rows[id := Row(version + 1, rows[id].data.(state := to, explanation := explanation))];
      r := Get(id);
    }
  }
}
