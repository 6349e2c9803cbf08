/**
 * The maintenance-schedule service. A schedule belongs to whoever owns the asset its `asset_id`
 * names; `log_id` optionally links the maintenance log that carried it out.
 */
module ScheduleService {
  import opened Wrappers
  import opened Records
  import opened Sequences
  import opened Store
  import opened SetClause
  import opened SqlOrder

  /** A truthy `log_id` must name one of the caller's logs; a falsy one (absent, null, 0) is not checked. */
  predicate LogAllowed(assets: seq<Asset>, logs: seq<MaintenanceLog>, logId: Option<int>, userId: int) {
    GivenId(logId) ==> OwnsLog(assets, logs, logId.value, userId)
  }

  /** The row `createSchedule` inserts: `log_id || null`, `due_condition || null`, `is_completed || false`. */
  function NewSchedule(id: int, data: ScheduleCreateData, now: int): (s: MaintenanceSchedule)
    ensures s.id == id && s.assetId == data.assetId && s.serviceName == data.serviceName
    ensures s.logId.None? <==> !GivenId(data.logId)
    ensures s.logId.Some? ==> s.logId == data.logId
    ensures s.dueDate == data.dueDate
    ensures s.dueCondition.None? <==> !Given(data.dueCondition)
    ensures s.dueCondition.Some? ==> s.dueCondition == data.dueCondition
    ensures s.isCompleted <==> data.isCompleted == Some(true)
  {
    MaintenanceSchedule(id, data.assetId, IdOrNull(data.logId), data.serviceName, data.dueDate,
                        StringOrNull(data.dueCondition), data.isCompleted == Some(true), now, now)
  }

  /** The asset check, the log check for a truthy `log_id`, then `INSERT INTO maintenance_schedules ...`. */
  method CreateSchedule(db: Database, userId: int, data: ScheduleCreateData, now: int)
    returns (r: Result<MaintenanceSchedule, Error>)
    requires db.Valid()
    modifies db`schedules, db`nextScheduleId
    ensures db.Valid()
    ensures !OwnsAsset(db.assets, data.assetId, userId) ==> r == Failure(AssetNotFound)
    ensures OwnsAsset(db.assets, data.assetId, userId) && !LogAllowed(db.assets, db.logs, data.logId, userId) ==>
      r == Failure(LogNotFound)
    ensures r.Success? <==> OwnsAsset(db.assets, data.assetId, userId) && LogAllowed(db.assets, db.logs, data.logId, userId)
    ensures r.Failure? ==> db.schedules == old(db.schedules) && db.nextScheduleId == old(db.nextScheduleId)
    ensures r.Success? ==>
      && r.value == NewSchedule(old(db.nextScheduleId), data, now)
      && db.schedules == old(db.schedules) + [r.value]
      && db.nextScheduleId == old(db.nextScheduleId) + 1
  {
    if !OwnsAsset(db.assets, data.assetId, userId) {
      return Failure(AssetNotFound);
    }
    if GivenId(data.logId) && !OwnsLog(db.assets, db.logs, data.logId.value, userId) {
      return Failure(LogNotFound);
    }
    var row := NewSchedule(db.nextScheduleId, data, now);
    AppendKeepsSerial(db.schedules, row, ScheduleKey, db.nextScheduleId);
    db.schedules := db.schedules + [row];
    db.nextScheduleId := db.nextScheduleId + 1;
    r := Success(row);
  }

  /**
   * The asset check, then the asset's schedules (only the pending ones unless `includeCompleted`)
   * `ORDER BY due_date NULLS LAST, created_at DESC`.
   */
  function GetSchedulesByAsset(assets: seq<Asset>, schedules: seq<MaintenanceSchedule>, userId: int, assetId: int,
                               includeCompleted: bool): (r: Result<seq<MaintenanceSchedule>, Error>)
    ensures r.Success? <==> OwnsAsset(assets, assetId, userId)
    ensures r.Failure? ==> r.error == AssetNotFound
    ensures r.Success? ==> forall s :: s in r.value <==>
      s in schedules && s.assetId == assetId && (includeCompleted || !s.isCompleted)
    ensures r.Success? ==> forall s :: s in r.value ==> OwnsSchedule(assets, schedules, s.id, userId)
    ensures r.Success? ==> SortedBy(r.value, DueDateThenNewest)
    ensures r.Success? ==>
      forall s :: multiset(r.value)[s] ==
        (if s.assetId == assetId && (includeCompleted || !s.isCompleted) then multiset(schedules)[s] else 0)
  {
    if !OwnsAsset(assets, assetId, userId) then Failure(AssetNotFound)
    else
      var wanted := (s: MaintenanceSchedule) => s.assetId == assetId && (includeCompleted || !s.isCompleted);
      FilterCount(schedules, wanted);
      ComparatorsTotal();
      Success(SortBy(Filter(schedules, wanted), DueDateThenNewest))
  }

  /** A row of the list queries that JOIN `assets`: the schedule and `a.name AS asset_name`. */
  datatype ScheduleRow = ScheduleRow(schedule: MaintenanceSchedule, assetName: string)

  /** The name the JOIN pairs with a schedule of `assetId`: that of an asset with this id owned by `userId`. */
  function AssetNameOf(assets: seq<Asset>, assetId: int, userId: int): (name: string)
    ensures OwnsAsset(assets, assetId, userId) ==>
      exists a :: a in assets && a.id == assetId && a.userId == userId && a.name == name
  {
    var found := Filter(assets, (a: Asset) => a.id == assetId && a.userId == userId);
    if found == [] then ""
    else
      assert found[0] in found;
      found[0].name
  }

  /** `row` carries the name of the caller's asset its schedule belongs to. */
  ghost predicate NamedAfterAsset(assets: seq<Asset>, row: ScheduleRow, userId: int) {
    exists a :: a in assets && a.id == row.schedule.assetId && a.userId == userId && a.name == row.assetName
  }

  /** `JOIN assets a ON ms.asset_id = a.id` on schedules already known to be the caller's, keeping their order. */
  function JoinAssets(assets: seq<Asset>, userId: int, ss: seq<MaintenanceSchedule>): (r: seq<ScheduleRow>)
    requires forall s :: s in ss ==> OwnsAsset(assets, s.assetId, userId)
    ensures SchedulesOf(r) == ss
    ensures forall row :: row in r ==> NamedAfterAsset(assets, row, userId)
  {
    var r := seq(|ss|, i requires 0 <= i < |ss| => ScheduleRow(ss[i], AssetNameOf(assets, ss[i].assetId, userId)));
    assert SchedulesOf(r) == ss;
    r
  }

  /** The schedule columns of the rows, in order. */
  function SchedulesOf(rows: seq<ScheduleRow>): (ss: seq<MaintenanceSchedule>)
    ensures |ss| == |rows|
    ensures forall i :: 0 <= i < |rows| ==> ss[i] == rows[i].schedule
  {
    seq(|rows|, i requires 0 <= i < |rows| => rows[i].schedule)
  }

  /** The caller's schedules that pass `keep`, sorted by `le`, joined with their asset's name. */
  function ListJoined(assets: seq<Asset>, schedules: seq<MaintenanceSchedule>, userId: int,
                      keep: MaintenanceSchedule -> bool, le: (MaintenanceSchedule, MaintenanceSchedule) -> bool)
    : (r: seq<ScheduleRow>)
    requires Total(le)
    ensures forall s :: s in SchedulesOf(r) <==> s in schedules && OwnsAsset(assets, s.assetId, userId) && keep(s)
    ensures forall row :: row in r ==> NamedAfterAsset(assets, row, userId)
    ensures SortedBy(SchedulesOf(r), le)
    ensures forall s ::
      multiset(SchedulesOf(r))[s] == (if OwnsAsset(assets, s.assetId, userId) && keep(s) then multiset(schedules)[s] else 0)
  {
    var wanted := (s: MaintenanceSchedule) => OwnsAsset(assets, s.assetId, userId) && keep(s);
    FilterCount(schedules, wanted);
    JoinAssets(assets, userId, SortBy(Filter(schedules, wanted), le))
  }

  /** `getPendingSchedules`: the caller's pending schedules `ORDER BY ms.due_date NULLS LAST`. */
  function GetPendingSchedules(assets: seq<Asset>, schedules: seq<MaintenanceSchedule>, userId: int)
    : (r: seq<ScheduleRow>)
    ensures forall s :: s in SchedulesOf(r) <==> s in schedules && OwnsAsset(assets, s.assetId, userId) && !s.isCompleted
    ensures forall row :: row in r ==> NamedAfterAsset(assets, row, userId)
    ensures SortedBy(SchedulesOf(r), DueDateNullsLast)
    ensures forall s ::
      multiset(SchedulesOf(r))[s] == (if OwnsAsset(assets, s.assetId, userId) && !s.isCompleted then multiset(schedules)[s] else 0)
  {
    ComparatorsTotal();
    ListJoined(assets, schedules, userId, Pending, DueDateNullsLast)
  }

  predicate AnyStatus(s: MaintenanceSchedule) { true }

  /**
   * `getAllSchedules`: the caller's schedules (only the pending ones unless `includeCompleted`)
   * `ORDER BY ms.is_completed, ms.due_date NULLS LAST, ms.created_at DESC`.
   */
  function GetAllSchedules(assets: seq<Asset>, schedules: seq<MaintenanceSchedule>, userId: int, includeCompleted: bool)
    : (r: seq<ScheduleRow>)
    ensures forall s :: s in SchedulesOf(r) <==>
      s in schedules && OwnsAsset(assets, s.assetId, userId) && (includeCompleted || !s.isCompleted)
    ensures forall row :: row in r ==> NamedAfterAsset(assets, row, userId)
    ensures SortedBy(SchedulesOf(r), PendingThenDueDateThenNewest)
    ensures forall s ::
      multiset(SchedulesOf(r))[s] == (if OwnsAsset(assets, s.assetId, userId) && (includeCompleted || !s.isCompleted) then multiset(schedules)[s] else 0)
  {
    ComparatorsTotal();
    ListJoined(assets, schedules, userId, if includeCompleted then AnyStatus else Pending, PendingThenDueDateThenNewest)
  }

  /** In `getAllSchedules` output no pending schedule follows a completed one. */
  lemma AllSchedulesPendingFirst(assets: seq<Asset>, schedules: seq<MaintenanceSchedule>, userId: int,
                                 includeCompleted: bool, i: int, j: int)
    requires 0 <= i <= j < |GetAllSchedules(assets, schedules, userId, includeCompleted)|
    requires GetAllSchedules(assets, schedules, userId, includeCompleted)[i].schedule.isCompleted
    ensures GetAllSchedules(assets, schedules, userId, includeCompleted)[j].schedule.isCompleted
  {
    var ss := SchedulesOf(GetAllSchedules(assets, schedules, userId, includeCompleted));
    PendingBeforeCompleted(ss, i, j);
  }

  /** In `getPendingSchedules` output the dated schedules come first, earliest due first. */
  lemma PendingSchedulesDatedFirst(assets: seq<Asset>, schedules: seq<MaintenanceSchedule>, userId: int, i: int, j: int)
    requires 0 <= i < j < |GetPendingSchedules(assets, schedules, userId)|
    ensures var r := GetPendingSchedules(assets, schedules, userId);
      && (r[i].schedule.dueDate.None? ==> r[j].schedule.dueDate.None?)
      && (r[i].schedule.dueDate.Some? && r[j].schedule.dueDate.Some? ==>
            r[i].schedule.dueDate.value <= r[j].schedule.dueDate.value)
  {
    var ss := SchedulesOf(GetPendingSchedules(assets, schedules, userId));
    DatedFirstAscending(ss, i, j);
  }

  /** `SELECT ... FROM maintenance_schedules ms JOIN assets a ... WHERE ms.id = $1 AND a.user_id = $2`. */
  function GetScheduleById(assets: seq<Asset>, schedules: seq<MaintenanceSchedule>, userId: int, scheduleId: int)
    : (r: Result<MaintenanceSchedule, Error>)
    ensures r.Success? <==> OwnsSchedule(assets, schedules, scheduleId, userId)
    ensures r.Success? ==> r.value in schedules && r.value.id == scheduleId && OwnsAsset(assets, r.value.assetId, userId)
    ensures r.Failure? ==> r.error == ScheduleNotFound
  {
    var found := Filter(schedules, (s: MaintenanceSchedule) => s.id == scheduleId && OwnsAsset(assets, s.assetId, userId));
    if found == [] then Failure(ScheduleNotFound)
    else
      assert found[0] in found;
      Success(found[0])
  }

  /**
   * The optional fields of `updateSchedule` in the order the builder visits them: `service_name`
   * when truthy, the other four whenever they are not undefined (`due_date` falsy and
   * `due_condition` empty are sent as NULL, and so is a `log_id` of 0).
   */
  function ScheduleCandidates(data: ScheduleUpdateData): seq<Candidate> {
    [ Candidate("service_name", Given(data.serviceName), OfString(data.serviceName)),
      Candidate("due_date", data.dueDate.Present?, if data.dueDate.Present? then OfDate(data.dueDate.value) else Null),
      Candidate("due_condition", data.dueCondition.Present?,
                if data.dueCondition.Present? then OfString(StringOrNull(data.dueCondition.value)) else Null),
      Candidate("is_completed", data.isCompleted.Present?, if data.isCompleted.Present? then Bool(data.isCompleted.value) else Null),
      Candidate("log_id", data.logId.Present?, if data.logId.Present? then OfInt(IdOrNull(data.logId.value)) else Null) ]
  }

  /** One assignment of the SET clause, executed on a schedule row. */
  function SetScheduleColumn(s: MaintenanceSchedule, c: Candidate): MaintenanceSchedule {
    if c.column == "service_name" && c.value.Str? then s.(serviceName := c.value.s)
    else if c.column == "due_date" then s.(dueDate := DateOf(c.value))
    else if c.column == "due_condition" then s.(dueCondition := StringOf(c.value))
    else if c.column == "is_completed" && c.value.Bool? then s.(isCompleted := c.value.b)
    else if c.column == "log_id" then s.(logId := IntOf(c.value))
    else s
  }

  /** A schedule row after the SET clause: the applied assignments in order, then `updated_at = NOW()`. */
  function ScheduleAfter(s: MaintenanceSchedule, applied: seq<Candidate>, now: int): MaintenanceSchedule {
    ApplyAll(s, SetScheduleColumn, applied).(updatedAt := now)
  }

  /** What an update does to the schedule it matches; the asset and the creation time never change. */
  function PatchSchedule(s: MaintenanceSchedule, data: ScheduleUpdateData, now: int): (m: MaintenanceSchedule)
    ensures m.id == s.id && m.assetId == s.assetId && m.createdAt == s.createdAt && m.updatedAt == now
  {
    s.(serviceName := if Given(data.serviceName) then data.serviceName.value else s.serviceName,
       dueDate := if data.dueDate.Present? then data.dueDate.value else s.dueDate,
       dueCondition := if data.dueCondition.Present? then StringOrNull(data.dueCondition.value) else s.dueCondition,
       isCompleted := if data.isCompleted.Present? then data.isCompleted.value else s.isCompleted,
       logId := if data.logId.Present? then IdOrNull(data.logId.value) else s.logId,
       updatedAt := now)
  }

  /** Running the built `UPDATE maintenance_schedules SET ...` on a row is `PatchSchedule`. */
  lemma ScheduleSetClause(s: MaintenanceSchedule, data: ScheduleUpdateData, now: int)
    ensures ScheduleAfter(s, Supplied(ScheduleCandidates(data)), now) == PatchSchedule(s, data, now)
  {
    var c := ScheduleCandidates(data);
    var p := PatchSchedule(s, data, now);
    var s1 := Step(s, SetScheduleColumn, c[0]);
    var s2 := Step(s1, SetScheduleColumn, c[1]);
    var s3 := Step(s2, SetScheduleColumn, c[2]);
    var s4 := Step(s3, SetScheduleColumn, c[3]);
    var s5 := Step(s4, SetScheduleColumn, c[4]);
    assert ApplyAll(s, SetScheduleColumn, Supplied(c)) == s5 by {
      assert c == [c[0], c[1], c[2], c[3], c[4]];
      ApplyInOrder5(s, SetScheduleColumn, c[0], c[1], c[2], c[3], c[4]);
    }
    assert s1 == s.(serviceName := p.serviceName) by {
      assert c[0] == Candidate("service_name", Given(data.serviceName), OfString(data.serviceName));
    }
    assert s2 == s1.(dueDate := p.dueDate) by {
      assert c[1] == Candidate("due_date", data.dueDate.Present?, if data.dueDate.Present? then OfDate(data.dueDate.value) else Null);
    }
    assert s3 == s2.(dueCondition := p.dueCondition) by {
      assert c[2] == Candidate("due_condition", data.dueCondition.Present?,
                               if data.dueCondition.Present? then OfString(StringOrNull(data.dueCondition.value)) else Null);
    }
    assert s4 == s3.(isCompleted := p.isCompleted) by {
      assert c[3] == Candidate("is_completed", data.isCompleted.Present?,
                               if data.isCompleted.Present? then Bool(data.isCompleted.value) else Null);
    }
    assert s5 == s4.(logId := p.logId) by {
      assert c[4] == Candidate("log_id", data.logId.Present?, if data.logId.Present? then OfInt(IdOrNull(data.logId.value)) else Null);
    }
  }

  /** Executes `UPDATE maintenance_schedules SET <applied>, updated_at = NOW() WHERE id = scheduleId`. */
  function RunScheduleUpdate(schedules: seq<MaintenanceSchedule>, applied: seq<Candidate>, scheduleId: int, now: int)
    : seq<MaintenanceSchedule>
  {
    MapWhere(schedules, (s: MaintenanceSchedule) => s.id == scheduleId, (s: MaintenanceSchedule) => ScheduleAfter(s, applied, now))
  }

  /** `after` is `before` with the schedule whose id is `scheduleId` patched and every other row as it was. */
  ghost predicate PatchedWhere(before: seq<MaintenanceSchedule>, after: seq<MaintenanceSchedule>, scheduleId: int,
                               data: ScheduleUpdateData, now: int)
  {
    && |after| == |before|
    && forall i :: 0 <= i < |before| ==>
         after[i] == if before[i].id == scheduleId then PatchSchedule(before[i], data, now) else before[i]
  }

  /** The update patches the row with that id, leaves the others as they were, and keeps ids SERIAL. */
  lemma RunScheduleUpdateIsPatch(schedules: seq<MaintenanceSchedule>, data: ScheduleUpdateData, scheduleId: int,
                                 now: int, next: int)
    requires Serial(schedules, ScheduleKey, next)
    ensures var r := RunScheduleUpdate(schedules, Supplied(ScheduleCandidates(data)), scheduleId, now);
      PatchedWhere(schedules, r, scheduleId, data, now) && Serial(r, ScheduleKey, next)
  {
    var applied := Supplied(ScheduleCandidates(data));
    forall s: MaintenanceSchedule ensures ScheduleAfter(s, applied, now) == PatchSchedule(s, data, now) {
      ScheduleSetClause(s, data, now);
    }
    MapWhereKeepsSerial(schedules, (s: MaintenanceSchedule) => s.id == scheduleId,
                        (s: MaintenanceSchedule) => ScheduleAfter(s, applied, now), ScheduleKey, next);
  }

  /** The patched schedule stays in the table, still on the caller's asset. */
  lemma UpdatedScheduleStaysOwned(assets: seq<Asset>, schedules: seq<MaintenanceSchedule>, data: ScheduleUpdateData,
                                  userId: int, target: MaintenanceSchedule, now: int, next: int)
    requires Serial(schedules, ScheduleKey, next)
    requires target in schedules && OwnsAsset(assets, target.assetId, userId)
    ensures var r := RunScheduleUpdate(schedules, Supplied(ScheduleCandidates(data)), target.id, now);
      PatchSchedule(target, data, now) in r && OwnsSchedule(assets, r, target.id, userId)
  {
    RunScheduleUpdateIsPatch(schedules, data, target.id, now, next);
    var r := RunScheduleUpdate(schedules, Supplied(ScheduleCandidates(data)), target.id, now);
    var k :| 0 <= k < |schedules| && schedules[k] == target;
    assert r[k] == PatchSchedule(target, data, now);
  }

  /** Runs the built `UPDATE maintenance_schedules ... WHERE id = scheduleId` on the table. */
  method ExecuteScheduleUpdate(db: Database, data: ScheduleUpdateData, scheduleId: int, now: int)
    requires db.Valid()
    modifies db`schedules
    ensures db.Valid()
    ensures db.schedules == RunScheduleUpdate(old(db.schedules), Supplied(ScheduleCandidates(data)), scheduleId, now)
    ensures PatchedWhere(old(db.schedules), db.schedules, scheduleId, data, now)
  {
    RunScheduleUpdateIsPatch(db.schedules, data, scheduleId, now, db.nextScheduleId);
    db.schedules := RunScheduleUpdate(db.schedules, Supplied(ScheduleCandidates(data)), scheduleId, now);
  }

  /**
   * The schedule check, the log check for a truthy `log_id`, the builder, and the
   * `UPDATE ... WHERE id = $(k+1)`. `statement` is the `UPDATE` that was sent, when one was.
   */
  method UpdateSchedule(db: Database, userId: int, scheduleId: int, data: ScheduleUpdateData, now: int)
    returns (r: Result<MaintenanceSchedule, Error>, statement: Option<UpdateStatement>)
    requires db.Valid()
    modifies db`schedules
    ensures db.Valid()
    ensures !OwnsSchedule(db.assets, old(db.schedules), scheduleId, userId) ==> r == Failure(ScheduleNotFound)
    ensures OwnsSchedule(db.assets, old(db.schedules), scheduleId, userId) &&
            data.logId.Present? && !LogAllowed(db.assets, db.logs, data.logId.value, userId) ==>
      r == Failure(LogNotFound)
    ensures r.Success? ==> data.logId.Absent? || LogAllowed(db.assets, db.logs, data.logId.value, userId)
    ensures r.Failure? && r.error == NothingToUpdate ==> Supplied(ScheduleCandidates(data)) == []
    ensures OwnsSchedule(db.assets, old(db.schedules), scheduleId, userId) &&
            (data.logId.Absent? || LogAllowed(db.assets, db.logs, data.logId.value, userId)) ==>
      (Supplied(ScheduleCandidates(data)) == [] <==> r == Failure(NothingToUpdate))
    ensures r.Success? <==>
      OwnsSchedule(db.assets, old(db.schedules), scheduleId, userId)
      && (data.logId.Absent? || LogAllowed(db.assets, db.logs, data.logId.value, userId))
      && Supplied(ScheduleCandidates(data)) != []
    ensures r.Failure? ==> db.schedules == old(db.schedules) && statement == None
    ensures r.Success? ==> statement.Some?
    ensures r.Success? ==>
      Describes(statement.value, "maintenance_schedules", Supplied(ScheduleCandidates(data)), ["id"], [Int(scheduleId)])
    ensures r.Success? ==> PatchedWhere(old(db.schedules), db.schedules, scheduleId, data, now)
    ensures r.Success? ==> exists s :: s in old(db.schedules) && s.id == scheduleId && OwnsAsset(db.assets, s.assetId, userId)
                                       && r.value == PatchSchedule(s, data, now)
    ensures r.Success? ==> OwnsSchedule(db.assets, db.schedules, scheduleId, userId)
  {
    var found := GetScheduleById(db.assets, db.schedules, userId, scheduleId);
    if found.Failure? {
      return Failure(ScheduleNotFound), None;
    }
    if data.logId.Present? && GivenId(data.logId.value) && !OwnsLog(db.assets, db.logs, data.logId.value.value, userId) {
      return Failure(LogNotFound), None;
    }
    var built := BuildUpdate("maintenance_schedules", ScheduleCandidates(data), ["id"], [Int(scheduleId)]);
    if built.Failure? {
      return Failure(built.error), None;
    }
    var target := found.value;
    UpdatedScheduleStaysOwned(db.assets, db.schedules, data, userId, target, now, db.nextScheduleId);
    ExecuteScheduleUpdate(db, data, scheduleId, now);
    r, statement := Success(PatchSchedule(target, data, now)), Some(built.value);
  }

  /** `DELETE FROM maintenance_schedules ms USING assets a WHERE ms.id = $1 AND ms.asset_id = a.id AND a.user_id = $2`. */
  method DeleteSchedule(db: Database, userId: int, scheduleId: int) returns (r: Result<(), Error>)
    requires db.Valid()
    modifies db`schedules
    ensures db.Valid()
    ensures r.Success? <==> OwnsSchedule(db.assets, old(db.schedules), scheduleId, userId)
    ensures r.Failure? ==> r.error == ScheduleNotFound && db.schedules == old(db.schedules)
    ensures r.Success? ==> |db.schedules| == |old(db.schedules)| - 1
    ensures r.Success? ==> forall s :: s in db.schedules <==> s in old(db.schedules) && s.id != scheduleId
  {
    var assets := db.assets;
    var keep := (s: MaintenanceSchedule) => !(s.id == scheduleId && OwnsAsset(assets, s.assetId, userId));
    var kept := Filter(db.schedules, keep);
    FilterRemovesNothing(db.schedules, keep);
    if |db.schedules| - |kept| == 0 {
      return Failure(ScheduleNotFound);
    }
    FilterRemovesAtMostOne(db.schedules, keep, ScheduleKey, scheduleId);
    FilterKeepsSerial(db.schedules, keep, ScheduleKey, db.nextScheduleId);
    db.schedules := kept;
    r := Success(());
  }

  /** `SET is_completed = true, log_id = $1, updated_at = NOW()` on one row, with `$1 = logId || null`. */
  function Complete(s: MaintenanceSchedule, logId: Option<int>, now: int): (c: MaintenanceSchedule)
    ensures c.isCompleted && c.logId == IdOrNull(logId) && c.updatedAt == now
    ensures c.(isCompleted := s.isCompleted, logId := s.logId, updatedAt := s.updatedAt) == s
  {
    s.(isCompleted := true, logId := IdOrNull(logId), updatedAt := now)
  }

  /** Executes the completion `UPDATE maintenance_schedules ... WHERE id = scheduleId`. */
  function RunComplete(schedules: seq<MaintenanceSchedule>, scheduleId: int, logId: Option<int>, now: int)
    : seq<MaintenanceSchedule>
  {
    MapWhere(schedules, (s: MaintenanceSchedule) => s.id == scheduleId, (s: MaintenanceSchedule) => Complete(s, logId, now))
  }

  /** `after` is `before` with the schedule whose id is `scheduleId` completed and every other row as it was. */
  ghost predicate CompletedWhere(before: seq<MaintenanceSchedule>, after: seq<MaintenanceSchedule>, scheduleId: int,
                                 logId: Option<int>, now: int)
  {
    && |after| == |before|
    && forall i :: 0 <= i < |before| ==>
         after[i] == if before[i].id == scheduleId then Complete(before[i], logId, now) else before[i]
  }

  /**
   * The schedule check, then the completion UPDATE. The log is not checked: whatever `logId` the
   * caller passes is linked. The `cost` argument is unused.
   */
  method CompleteSchedule(db: Database, userId: int, scheduleId: int, logId: Option<int>, now: int)
    returns (r: Result<MaintenanceSchedule, Error>)
    requires db.Valid()
    modifies db`schedules
    ensures db.Valid()
    ensures r.Success? <==> OwnsSchedule(db.assets, old(db.schedules), scheduleId, userId)
    ensures r.Failure? ==> r.error == ScheduleNotFound && db.schedules == old(db.schedules)
    ensures r.Success? ==> CompletedWhere(old(db.schedules), db.schedules, scheduleId, logId, now)
    ensures r.Success? ==> exists s :: s in old(db.schedules) && s.id == scheduleId && OwnsAsset(db.assets, s.assetId, userId)
                                       && r.value == Complete(s, logId, now)
    ensures r.Success? ==> r.value in db.schedules && r.value.id == scheduleId && r.value.isCompleted
                           && r.value.logId == IdOrNull(logId)
  {
    var found := GetScheduleById(db.assets, db.schedules, userId, scheduleId);
    if found.Failure? {
      return Failure(ScheduleNotFound);
    }
    var target := found.value;
    MapWhereKeepsSerial(db.schedules, (s: MaintenanceSchedule) => s.id == scheduleId,
                        (s: MaintenanceSchedule) => Complete(s, logId, now), ScheduleKey, db.nextScheduleId);
    var k :| 0 <= k < |db.schedules| && db.schedules[k] == target;
    db.schedules := RunComplete(db.schedules, scheduleId, logId, now);
    assert db.schedules[k] == Complete(target, logId, now);
    r := Success(Complete(target, logId, now));
  }

  /** An id absent from the schedules of some rows is absent from the rows. */
  lemma RowsAvoidId(rows: seq<ScheduleRow>, id: int)
    requires forall s :: s in SchedulesOf(rows) ==> s.id != id
    ensures forall row :: row in rows ==> row.schedule.id != id
  {
    forall row | row in rows ensures row.schedule.id != id {
      var i :| 0 <= i < |rows| && rows[i] == row;
      assert SchedulesOf(rows)[i] == row.schedule;
    }
  }

  /** Once the schedule with id `scheduleId` is completed, no pending list shows it. */
  lemma CompletedLeavesPending(assets: seq<Asset>, schedules: seq<MaintenanceSchedule>, userId: int,
                               scheduleId: int, next: int)
    requires Serial(schedules, ScheduleKey, next)
    requires exists s :: s in schedules && s.id == scheduleId && s.isCompleted
    ensures forall row :: row in GetPendingSchedules(assets, schedules, userId) ==> row.schedule.id != scheduleId
    ensures forall row :: row in GetAllSchedules(assets, schedules, userId, false) ==> row.schedule.id != scheduleId
  {
    var done :| done in schedules && done.id == scheduleId && done.isCompleted;
    forall s | s in schedules && !s.isCompleted ensures s.id != scheduleId {
      KeysDiffer(schedules, ScheduleKey, s, done);
    }
    RowsAvoidId(GetPendingSchedules(assets, schedules, userId), scheduleId);
    RowsAvoidId(GetAllSchedules(assets, schedules, userId, false), scheduleId);
  }
}
