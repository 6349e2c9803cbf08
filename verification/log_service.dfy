/**
 * The maintenance-log service. A log belongs to whoever owns the asset its `asset_id` names, and
 * every query reaches logs through that JOIN on `assets`.
 */
module LogService {
  import opened Wrappers
  import opened Records
  import opened Sequences
  import opened Store
  import opened SetClause
  import opened SqlOrder

  /** The ownership check, then `INSERT INTO maintenance_logs (...) VALUES (...) RETURNING ...`. */
  method CreateLog(db: Database, userId: int, data: LogCreateData, now: int) returns (r: Result<MaintenanceLog, Error>)
    requires db.Valid()
    modifies db`logs, db`nextLogId
    ensures db.Valid()
    ensures r.Success? <==> OwnsAsset(db.assets, data.assetId, userId)
    ensures r.Failure? ==> r.error == AssetNotFound && db.logs == old(db.logs) && db.nextLogId == old(db.nextLogId)
    ensures r.Success? ==>
      && r.value == MaintenanceLog(old(db.nextLogId), data.assetId, data.serviceName, data.serviceDate,
                                   data.description, data.cost, now, now)
      && db.logs == old(db.logs) + [r.value]
      && db.nextLogId == old(db.nextLogId) + 1
  {
    if !OwnsAsset(db.assets, data.assetId, userId) {
      return Failure(AssetNotFound);
    }
    var row := MaintenanceLog(db.nextLogId, data.assetId, data.serviceName, data.serviceDate,
                              data.description, data.cost, now, now);
    AppendKeepsSerial(db.logs, row, LogKey, db.nextLogId);
    db.logs := db.logs + [row];
    db.nextLogId := db.nextLogId + 1;
    r := Success(row);
  }

  /** The asset check, then the asset's logs `ORDER BY service_date DESC`. */
  function GetLogsByAsset(assets: seq<Asset>, logs: seq<MaintenanceLog>, userId: int, assetId: int)
    : (r: Result<seq<MaintenanceLog>, Error>)
    ensures r.Success? <==> OwnsAsset(assets, assetId, userId)
    ensures r.Failure? ==> r.error == AssetNotFound
    ensures r.Success? ==> forall l :: l in r.value <==> l in logs && l.assetId == assetId
    ensures r.Success? ==> forall l :: l in r.value ==> OwnsLog(assets, logs, l.id, userId)
    ensures r.Success? ==> SortedBy(r.value, ServiceDateDesc)
    ensures r.Success? ==> forall l :: multiset(r.value)[l] == if l.assetId == assetId then multiset(logs)[l] else 0
  {
    if !OwnsAsset(assets, assetId, userId) then Failure(AssetNotFound)
    else
      var mine := (l: MaintenanceLog) => l.assetId == assetId && OwnsAsset(assets, l.assetId, userId);
      FilterCount(logs, mine);
      ComparatorsTotal();
      Success(SortBy(Filter(logs, mine), ServiceDateDesc))
  }

  /** `SELECT ... FROM maintenance_logs ml JOIN assets a ... WHERE ml.id = $1 AND a.user_id = $2`. */
  function GetLogById(assets: seq<Asset>, logs: seq<MaintenanceLog>, userId: int, logId: int)
    : (r: Result<MaintenanceLog, Error>)
    ensures r.Success? <==> OwnsLog(assets, logs, logId, userId)
    ensures r.Success? ==> r.value in logs && r.value.id == logId && OwnsAsset(assets, r.value.assetId, userId)
    ensures r.Failure? ==> r.error == LogNotFound
  {
    var found := Filter(logs, (l: MaintenanceLog) => l.id == logId && OwnsAsset(assets, l.assetId, userId));
    if found == [] then Failure(LogNotFound)
    else
      assert found[0] in found;
      Success(found[0])
  }

  /** The optional fields of `updateLog` in the order the builder visits them. */
  function LogCandidates(data: LogUpdateData): seq<Candidate> {
    [ Candidate("asset_id", data.assetId.Present?, if data.assetId.Present? then OfInt(data.assetId.value) else Null),
      Candidate("service_name", Given(data.serviceName), OfString(data.serviceName)),
      Candidate("service_date", data.serviceDate.Some?, OfDate(data.serviceDate)),
      Candidate("description", data.description.Present?, if data.description.Present? then OfString(data.description.value) else Null),
      Candidate("cost", data.cost.Present?, if data.cost.Present? then OfInt(data.cost.value) else Null) ]
  }

  /** One assignment of the SET clause, executed on a log row. */
  function SetLogColumn(l: MaintenanceLog, c: Candidate): MaintenanceLog {
    if c.column == "asset_id" && c.value.Int? then l.(assetId := c.value.i)
    else if c.column == "service_name" && c.value.Str? then l.(serviceName := c.value.s)
    else if c.column == "service_date" && c.value.Timestamp? then l.(serviceDate := c.value.t)
    else if c.column == "description" then l.(description := StringOf(c.value))
    else if c.column == "cost" then l.(cost := IntOf(c.value))
    else l
  }

  /** A log row after the SET clause: the applied assignments in order, then `updated_at = NOW()`. */
  function LogAfter(l: MaintenanceLog, applied: seq<Candidate>, now: int): MaintenanceLog {
    ApplyAll(l, SetLogColumn, applied).(updatedAt := now)
  }

  /**
   * What an update does to the log it matches: a new asset when one is given, name and date when
   * truthy, description and cost (possibly to NULL) whenever they are not undefined.
   */
  function PatchLog(l: MaintenanceLog, data: LogUpdateData, now: int): (m: MaintenanceLog)
    ensures m.id == l.id && m.createdAt == l.createdAt && m.updatedAt == now
  {
    l.(assetId := if data.assetId.Present? && data.assetId.value.Some? then data.assetId.value.value else l.assetId,
       serviceName := if Given(data.serviceName) then data.serviceName.value else l.serviceName,
       serviceDate := if data.serviceDate.Some? then data.serviceDate.value else l.serviceDate,
       description := if data.description.Present? then data.description.value else l.description,
       cost := if data.cost.Present? then data.cost.value else l.cost,
       updatedAt := now)
  }

  /** Running the built `UPDATE maintenance_logs SET ...` on a row is `PatchLog`. */
  lemma LogSetClause(l: MaintenanceLog, data: LogUpdateData, now: int)
    ensures LogAfter(l, Supplied(LogCandidates(data)), now) == PatchLog(l, data, now)
  {
    var c := LogCandidates(data);
    var p := PatchLog(l, data, now);
    var s1 := Step(l, SetLogColumn, c[0]);
    var s2 := Step(s1, SetLogColumn, c[1]);
    var s3 := Step(s2, SetLogColumn, c[2]);
    var s4 := Step(s3, SetLogColumn, c[3]);
    var s5 := Step(s4, SetLogColumn, c[4]);
    assert ApplyAll(l, SetLogColumn, Supplied(c)) == s5 by {
      assert c == [c[0], c[1], c[2], c[3], c[4]];
      ApplyInOrder5(l, SetLogColumn, c[0], c[1], c[2], c[3], c[4]);
    }
    assert s1 == l.(assetId := p.assetId) by {
      assert c[0] == Candidate("asset_id", data.assetId.Present?, if data.assetId.Present? then OfInt(data.assetId.value) else Null);
    }
    assert s2 == s1.(serviceName := p.serviceName) by {
      assert c[1] == Candidate("service_name", Given(data.serviceName), OfString(data.serviceName));
    }
    assert s3 == s2.(serviceDate := p.serviceDate) by {
      assert c[2] == Candidate("service_date", data.serviceDate.Some?, OfDate(data.serviceDate));
    }
    assert s4 == s3.(description := p.description) by {
      assert c[3] == Candidate("description", data.description.Present?, if data.description.Present? then OfString(data.description.value) else Null);
    }
    assert s5 == s4.(cost := p.cost) by {
      assert c[4] == Candidate("cost", data.cost.Present?, if data.cost.Present? then OfInt(data.cost.value) else Null);
    }
  }

  /** Executes `UPDATE maintenance_logs SET <applied>, updated_at = NOW() WHERE id = logId`. */
  function RunLogUpdate(logs: seq<MaintenanceLog>, applied: seq<Candidate>, logId: int, now: int): seq<MaintenanceLog> {
    MapWhere(logs, (l: MaintenanceLog) => l.id == logId, (l: MaintenanceLog) => LogAfter(l, applied, now))
  }

  /** The update patches the row with that id, leaves the others as they were, and keeps ids SERIAL. */
  lemma RunLogUpdateIsPatch(logs: seq<MaintenanceLog>, data: LogUpdateData, logId: int, now: int, next: int)
    requires Serial(logs, LogKey, next)
    ensures var r := RunLogUpdate(logs, Supplied(LogCandidates(data)), logId, now);
      PatchedWhere(logs, r, logId, data, now) && Serial(r, LogKey, next)
  {
    var applied := Supplied(LogCandidates(data));
    forall l: MaintenanceLog ensures LogAfter(l, applied, now) == PatchLog(l, data, now) {
      LogSetClause(l, data, now);
    }
    MapWhereKeepsSerial(logs, (l: MaintenanceLog) => l.id == logId,
                        (l: MaintenanceLog) => LogAfter(l, applied, now), LogKey, next);
  }

  /** A log moved only to one of the caller's assets stays the caller's. */
  lemma UpdatedLogStaysOwned(assets: seq<Asset>, logs: seq<MaintenanceLog>, data: LogUpdateData, userId: int,
                             target: MaintenanceLog, now: int, next: int)
    requires Serial(logs, LogKey, next)
    requires target in logs && OwnsAsset(assets, target.assetId, userId)
    requires NewAssetAllowed(assets, data.assetId, userId)
    ensures var r := RunLogUpdate(logs, Supplied(LogCandidates(data)), target.id, now);
      && PatchLog(target, data, now) in r
      && OwnsAsset(assets, PatchLog(target, data, now).assetId, userId)
      && OwnsLog(assets, r, target.id, userId)
  {
    RunLogUpdateIsPatch(logs, data, target.id, now, next);
    var r := RunLogUpdate(logs, Supplied(LogCandidates(data)), target.id, now);
    var k :| 0 <= k < |logs| && logs[k] == target;
    assert r[k] == PatchLog(target, data, now);
  }

  /** A supplied `asset_id` must name one of the caller's assets; `null` names none. */
  predicate NewAssetAllowed(assets: seq<Asset>, assetId: Patch<Option<int>>, userId: int) {
    assetId.Absent? || (assetId.value.Some? && OwnsAsset(assets, assetId.value.value, userId))
  }

  /** `after` is `before` with the row whose id is `logId` patched and every other row as it was. */
  ghost predicate PatchedWhere(before: seq<MaintenanceLog>, after: seq<MaintenanceLog>, logId: int, data: LogUpdateData, now: int) {
    && |after| == |before|
    && forall i :: 0 <= i < |before| ==>
         after[i] == if before[i].id == logId then PatchLog(before[i], data, now) else before[i]
  }

  /** Runs the built `UPDATE maintenance_logs ... WHERE id = logId` on the table. */
  method ExecuteLogUpdate(db: Database, data: LogUpdateData, logId: int, now: int)
    requires db.Valid()
    modifies db`logs
    ensures db.Valid()
    ensures db.logs == RunLogUpdate(old(db.logs), Supplied(LogCandidates(data)), logId, now)
    ensures PatchedWhere(old(db.logs), db.logs, logId, data, now)
  {
    RunLogUpdateIsPatch(db.logs, data, logId, now, db.nextLogId);
    db.logs := RunLogUpdate(db.logs, Supplied(LogCandidates(data)), logId, now);
  }

  /**
   * The log check, the new-asset check, the builder, and the `UPDATE ... WHERE id = $(k+1)`.
   * `statement` is the `UPDATE` that was sent, when one was.
   */
  method UpdateLog(db: Database, userId: int, logId: int, data: LogUpdateData, now: int)
    returns (r: Result<MaintenanceLog, Error>, statement: Option<UpdateStatement>)
    requires db.Valid()
    modifies db`logs
    ensures db.Valid()
    ensures !OwnsLog(db.assets, old(db.logs), logId, userId) ==> r == Failure(LogNotFound)
    ensures OwnsLog(db.assets, old(db.logs), logId, userId) && !NewAssetAllowed(db.assets, data.assetId, userId) ==>
      r == Failure(NewAssetNotFound)
    ensures OwnsLog(db.assets, old(db.logs), logId, userId) && NewAssetAllowed(db.assets, data.assetId, userId) ==>
      (Supplied(LogCandidates(data)) == [] ==> r == Failure(NothingToUpdate))
    ensures r.Success? <==>
      OwnsLog(db.assets, old(db.logs), logId, userId) && NewAssetAllowed(db.assets, data.assetId, userId)
      && Supplied(LogCandidates(data)) != []
    ensures r.Failure? ==> db.logs == old(db.logs) && statement == None
    ensures r.Success? ==> statement.Some?
    ensures r.Success? ==> Describes(statement.value, "maintenance_logs", Supplied(LogCandidates(data)), ["id"], [Int(logId)])
    ensures r.Success? ==> PatchedWhere(old(db.logs), db.logs, logId, data, now)
    ensures r.Success? ==> exists l :: l in old(db.logs) && l.id == logId && OwnsAsset(db.assets, l.assetId, userId)
                                       && r.value == PatchLog(l, data, now)
    ensures r.Success? ==> OwnsLog(db.assets, db.logs, logId, userId)
  {
    var found := GetLogById(db.assets, db.logs, userId, logId);
    if found.Failure? {
      return Failure(LogNotFound), None;
    }
    if data.assetId.Present? && !(data.assetId.value.Some? && OwnsAsset(db.assets, data.assetId.value.value, userId)) {
      return Failure(NewAssetNotFound), None;
    }
    var built := BuildUpdate("maintenance_logs", LogCandidates(data), ["id"], [Int(logId)]);
    if built.Failure? {
      return Failure(built.error), None;
    }
    var target := found.value;
    UpdatedLogStaysOwned(db.assets, db.logs, data, userId, target, now, db.nextLogId);
    ExecuteLogUpdate(db, data, logId, now);
    r, statement := Success(PatchLog(target, data, now)), Some(built.value);
  }

  /** `DELETE FROM maintenance_logs ml USING assets a WHERE ml.id = $1 AND ml.asset_id = a.id AND a.user_id = $2`. */
  method DeleteLog(db: Database, userId: int, logId: int) returns (r: Result<(), Error>)
    requires db.Valid()
    modifies db`logs
    ensures db.Valid()
    ensures r.Success? <==> OwnsLog(db.assets, old(db.logs), logId, userId)
    ensures r.Failure? ==> r.error == LogNotFound && db.logs == old(db.logs)
    ensures r.Success? ==> |db.logs| == |old(db.logs)| - 1
    ensures r.Success? ==> forall l :: l in db.logs <==> l in old(db.logs) && l.id != logId
  {
    var assets := db.assets;
    var keep := (l: MaintenanceLog) => !(l.id == logId && OwnsAsset(assets, l.assetId, userId));
    var kept := Filter(db.logs, keep);
    FilterRemovesNothing(db.logs, keep);
    if |db.logs| - |kept| == 0 {
      return Failure(LogNotFound);
    }
    FilterRemovesAtMostOne(db.logs, keep, LogKey, logId);
    FilterKeepsSerial(db.logs, keep, LogKey, db.nextLogId);
    db.logs := kept;
    r := Success(());
  }

  /** The caller's logs: those whose asset the caller owns (the JOIN on `assets` with `a.user_id = $1`). */
  function UserLogs(assets: seq<Asset>, logs: seq<MaintenanceLog>, userId: int): (r: seq<MaintenanceLog>)
    ensures forall l :: l in r <==> l in logs && OwnsAsset(assets, l.assetId, userId)
    ensures forall l :: multiset(r)[l] == (if OwnsAsset(assets, l.assetId, userId) then multiset(logs)[l] else 0)
  {
    var mine := (l: MaintenanceLog) => OwnsAsset(assets, l.assetId, userId);
    FilterCount(logs, mine);
    Filter(logs, mine)
  }

  /** `... WHERE a.user_id = $1 ORDER BY ml.created_at DESC LIMIT $2`, with `limit` 5 when undefined. */
  function GetRecentLogs(assets: seq<Asset>, logs: seq<MaintenanceLog>, userId: int, limit: Option<nat>)
    : (r: seq<MaintenanceLog>)
    ensures |r| <= limit.GetOr(5)
    ensures |r| == if limit.GetOr(5) < |UserLogs(assets, logs, userId)| then limit.GetOr(5) else |UserLogs(assets, logs, userId)|
    ensures multiset(r) <= multiset(UserLogs(assets, logs, userId))
    ensures forall l :: l in r ==> l in logs && OwnsAsset(assets, l.assetId, userId)
    ensures |r| == limit.GetOr(5) || forall l :: l in logs && OwnsAsset(assets, l.assetId, userId) ==> l in r
    ensures SortedBy(r, NewestLogFirst)
    ensures forall x, y :: x in r && y in logs && OwnsAsset(assets, y.assetId, userId) && y !in r ==>
      x.createdAt >= y.createdAt
  {
    ComparatorsTotal();
    var sorted := SortBy(UserLogs(assets, logs, userId), NewestLogFirst);
    TakeSortedTop(sorted, limit.GetOr(5), NewestLogFirst);
    Take(sorted, limit.GetOr(5))
  }

  /** The columns `getAllLogs` lets a caller sort by. */
  datatype LogSort = ByServiceDate | ByCreatedAt | ByCost

  datatype LogOrder = LogOrder(column: LogSort, descending: bool)

  function ColumnName(c: LogSort): string {
    match c
    case ByServiceDate => "service_date"
    case ByCreatedAt => "created_at"
    case ByCost => "cost"
  }

  /** The whitelist: `sort` is honoured only when it names a sortable column; otherwise newest first. */
  function LogOrderOf(sort: Option<string>, order: Option<string>): (o: LogOrder)
    ensures sort == Some("service_date") ==> o == LogOrder(ByServiceDate, order == Some("desc"))
    ensures sort == Some("created_at") ==> o == LogOrder(ByCreatedAt, order == Some("desc"))
    ensures sort == Some("cost") ==> o == LogOrder(ByCost, order == Some("desc"))
    ensures sort !in {Some("service_date"), Some("created_at"), Some("cost")} ==> o == LogOrder(ByCreatedAt, true)
  {
    if sort == Some("service_date") then LogOrder(ByServiceDate, order == Some("desc"))
    else if sort == Some("created_at") then LogOrder(ByCreatedAt, order == Some("desc"))
    else if sort == Some("cost") then LogOrder(ByCost, order == Some("desc"))
    else LogOrder(ByCreatedAt, true)
  }

  /** The `ORDER BY` text for an order. */
  function Render(o: LogOrder): string {
    " ORDER BY " + ColumnName(o.column) + " " + (if o.descending then "DESC" else "ASC")
  }

  /**
   * The text `getAllLogs` appends: the caller's `sort` string is spliced in only when it is on the
   * whitelist, so the clause is always one of the six `Render` outputs.
   */
  function OrderByClause(sort: Option<string>, order: Option<string>): (clause: string)
    ensures clause == Render(LogOrderOf(sort, order))
  {
    if Given(sort) && sort.value in ["service_date", "created_at", "cost"] then
      " ORDER BY " + sort.value + " " + (if order == Some("desc") then "DESC" else "ASC")
    else
      " ORDER BY created_at DESC"
  }

  /** Different orders render differently, so the clause determines the order. */
  lemma RenderInjective(o1: LogOrder, o2: LogOrder)
    requires Render(o1) == Render(o2)
    ensures o1 == o2
  {
    var n1, n2 := ColumnName(o1.column), ColumnName(o2.column);
    var p := " ORDER BY ";
    assert Render(o1)[|p|..|p| + 2] == n1[..2];
    assert Render(o2)[|p|..|p| + 2] == n2[..2];
    assert Render(o1)[|p|..|p| + 2] == Render(o2)[|p|..|p| + 2];
    assert o1.column == o2.column;
    var t1 := if o1.descending then "DESC" else "ASC";
    var t2 := if o2.descending then "DESC" else "ASC";
    assert Render(o1)[|Render(o1)| - 1] == t1[|t1| - 1];
    assert Render(o2)[|Render(o2)| - 1] == t2[|t2| - 1];
  }

  /** `a` may precede `b` under `o`; `cost` is NULLS LAST ascending and NULLS FIRST descending. */
  predicate LogBefore(o: LogOrder, a: MaintenanceLog, b: MaintenanceLog) {
    match o.column
    case ByServiceDate => if o.descending then a.serviceDate >= b.serviceDate else a.serviceDate <= b.serviceDate
    case ByCreatedAt => if o.descending then a.createdAt >= b.createdAt else a.createdAt <= b.createdAt
    case ByCost => if o.descending then NullsLastLe(b.cost, a.cost) else NullsLastLe(a.cost, b.cost)
  }

  lemma LogBeforeTotal(o: LogOrder)
    ensures Total((a: MaintenanceLog, b: MaintenanceLog) => LogBefore(o, a, b))
  {
  }

  lemma LogBeforeTransitive(o: LogOrder)
    ensures Transitive((a: MaintenanceLog, b: MaintenanceLog) => LogBefore(o, a, b))
  {
  }

  /**
   * `getAllLogs`: the caller's logs in the whitelisted order, then `LIMIT $2` when `limit` is
   * truthy (a `limit` of 0 returns every row). A negative limit is truthy too, and the database
   * rejects `LIMIT` with a negative count.
   */
  function GetAllLogs(assets: seq<Asset>, logs: seq<MaintenanceLog>, userId: int,
                      limit: Option<int>, sort: Option<string>, order: Option<string>)
    : (r: Result<seq<MaintenanceLog>, Error>)
    ensures r.Failure? <==> limit.Some? && limit.value < 0
    ensures r.Failure? ==> r.error == NegativeLimit
    ensures r.Success? ==> forall l :: l in r.value ==> l in logs && OwnsAsset(assets, l.assetId, userId)
    ensures r.Success? ==> forall i :: 0 < i < |r.value| ==> LogBefore(LogOrderOf(sort, order), r.value[i - 1], r.value[i])
    ensures r.Success? && limit.Some? && limit.value > 0 ==>
      |r.value| == if limit.value < |UserLogs(assets, logs, userId)| then limit.value else |UserLogs(assets, logs, userId)|
    ensures limit.None? || limit.value == 0 ==> r.Success? && multiset(r.value) == multiset(UserLogs(assets, logs, userId))
    ensures r.Success? ==> multiset(r.value) <= multiset(UserLogs(assets, logs, userId))
    ensures r.Success? ==> forall x, y :: x in r.value && y in logs && OwnsAsset(assets, y.assetId, userId) && y !in r.value ==>
      LogBefore(LogOrderOf(sort, order), x, y)
  {
    if limit.Some? && limit.value < 0 then Failure(NegativeLimit)
    else Success(OrderedLogs(assets, logs, userId, if limit.Some? then limit.value else 0, LogOrderOf(sort, order)))
  }

  /** The caller's logs in order `o`, the first `n` of them when `n` is not 0. */
  function OrderedLogs(assets: seq<Asset>, logs: seq<MaintenanceLog>, userId: int, n: nat, o: LogOrder)
    : (r: seq<MaintenanceLog>)
    ensures forall l :: l in r ==> l in logs && OwnsAsset(assets, l.assetId, userId)
    ensures forall i :: 0 < i < |r| ==> LogBefore(o, r[i - 1], r[i])
    ensures n > 0 ==> |r| == if n < |UserLogs(assets, logs, userId)| then n else |UserLogs(assets, logs, userId)|
    ensures n == 0 ==> multiset(r) == multiset(UserLogs(assets, logs, userId))
    ensures multiset(r) <= multiset(UserLogs(assets, logs, userId))
    ensures forall x, y :: x in r && y in logs && OwnsAsset(assets, y.assetId, userId) && y !in r ==> LogBefore(o, x, y)
  {
    var sorted := SortLogs(UserLogs(assets, logs, userId), o);
    if n != 0 then
      TakeLogsTop(sorted, n, o);
      Take(sorted, n)
    else sorted
  }

  /** The rows in `o`'s order: a permutation of `s` in which every row may precede every later one. */
  function SortLogs(s: seq<MaintenanceLog>, o: LogOrder): (r: seq<MaintenanceLog>)
    ensures multiset(r) == multiset(s)
    ensures forall i, j :: 0 <= i < j < |r| ==> LogBefore(o, r[i], r[j])
  {
    var le := (a: MaintenanceLog, b: MaintenanceLog) => LogBefore(o, a, b);
    LogBeforeTotal(o);
    LogBeforeTransitive(o);
    var r := SortBy(s, le);
    assert forall i, j :: 0 <= i < j < |r| ==> LogBefore(o, r[i], r[j]) by {
      forall i, j | 0 <= i < j < |r| ensures LogBefore(o, r[i], r[j]) {
        SortedPairwise(r, le, i, j);
      }
    }
    r
  }

  /** `LIMIT n` on rows in `o`'s order keeps rows that may precede every row it drops. */
  lemma TakeLogsTop(sorted: seq<MaintenanceLog>, n: nat, o: LogOrder)
    requires forall i, j :: 0 <= i < j < |sorted| ==> LogBefore(o, sorted[i], sorted[j])
    ensures forall x, y :: x in Take(sorted, n) && y in sorted && y !in Take(sorted, n) ==> LogBefore(o, x, y)
  {
    var r := Take(sorted, n);
    assert forall k :: 0 <= k < |r| ==> r[k] == sorted[k];
    forall x, y | x in r && y in sorted && y !in r ensures LogBefore(o, x, y) {
      var i :| 0 <= i < |r| && r[i] == x;
      var j :| 0 <= j < |sorted| && sorted[j] == y;
    }
  }
}
