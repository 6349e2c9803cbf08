/**
 * The asset service: every call is scoped to the caller's `userId`, and an asset that is missing
 * or belongs to someone else is reported as not found.
 */
module AssetService {
  import opened Wrappers
  import opened Records
  import opened Sequences
  import opened Store
  import opened SetClause
  import opened SqlOrder

  /** `INSERT INTO assets (user_id, name, description) VALUES (...) RETURNING ...` */
  method CreateAsset(db: Database, userId: int, data: AssetCreateData, now: int) returns (r: Asset)
    requires db.Valid()
    modifies db`assets, db`nextAssetId
    ensures db.Valid()
    ensures r == Asset(old(db.nextAssetId), userId, data.name, data.description, now, now)
    ensures db.assets == old(db.assets) + [r]
    ensures db.nextAssetId == old(db.nextAssetId) + 1
  {
    r := Asset(db.nextAssetId, userId, data.name, data.description, now, now);
    AppendKeepsSerial(db.assets, r, AssetKey, db.nextAssetId);
    db.assets := db.assets + [r];
    db.nextAssetId := db.nextAssetId + 1;
  }

  /** `SELECT ... FROM assets WHERE user_id = $1`: exactly the caller's assets, in table order. */
  function GetAllAssets(assets: seq<Asset>, userId: int): (r: seq<Asset>)
    ensures forall a :: a in r <==> a in assets && a.userId == userId
    ensures IsSubsequence(r, assets)
  {
    var mine := (a: Asset) => a.userId == userId;
    FilterIsSubsequence(assets, mine);
    Filter(assets, mine)
  }

  /** `SELECT ... FROM assets WHERE id = $1 AND user_id = $2`, throwing when no row matches. */
  function GetAssetById(assets: seq<Asset>, userId: int, assetId: int): (r: Result<Asset, Error>)
    ensures r.Success? <==> OwnsAsset(assets, assetId, userId)
    ensures r.Success? ==> r.value in assets && r.value.id == assetId && r.value.userId == userId
    ensures r.Failure? ==> r.error == AssetNotFound
  {
    var found := Filter(assets, (a: Asset) => a.id == assetId && a.userId == userId);
    if found == [] then Failure(AssetNotFound)
    else
      assert found[0] in found;
      Success(found[0])
  }

  /** The optional fields of `updateAsset`, in the order the builder visits them; each counts when truthy. */
  function AssetCandidates(data: AssetUpdateData): seq<Candidate> {
    [ Candidate("name", Given(data.name), OfString(data.name)),
      Candidate("description", Given(data.description), OfString(data.description)) ]
  }

  /** One assignment of the SET clause, executed on an asset row. */
  function SetAssetColumn(a: Asset, c: Candidate): Asset {
    if c.column == "name" && c.value.Str? then a.(name := c.value.s)
    else if c.column == "description" then a.(description := StringOf(c.value))
    else a
  }

  /** What an update does to the asset it matches: the truthy fields replace the stored ones. */
  function PatchAsset(a: Asset, data: AssetUpdateData, now: int): (b: Asset)
    ensures b.id == a.id && b.userId == a.userId && b.createdAt == a.createdAt && b.updatedAt == now
  {
    a.(name := if Given(data.name) then data.name.value else a.name,
       description := if Given(data.description) then data.description else a.description,
       updatedAt := now)
  }

  /** A row after the SET clause: the applied assignments in order, then `updated_at = NOW()`. */
  function AssetAfter(a: Asset, applied: seq<Candidate>, now: int): Asset {
    ApplyAll(a, SetAssetColumn, applied).(updatedAt := now)
  }

  /** Running the built `UPDATE assets SET ...` on a row is `PatchAsset`. */
  lemma AssetSetClause(a: Asset, data: AssetUpdateData, now: int)
    ensures AssetAfter(a, Supplied(AssetCandidates(data)), now) == PatchAsset(a, data, now)
  {
    var c := AssetCandidates(data);
    assert c == [c[0], c[1]];
    ApplyInOrder2(a, SetAssetColumn, c[0], c[1]);
  }

  /** The row `updateAsset` and `deleteAsset` target. */
  predicate IsTarget(a: Asset, userId: int, assetId: int) {
    a.id == assetId && a.userId == userId
  }

  /** Executes `UPDATE assets SET <applied>, updated_at = NOW() WHERE id = assetId AND user_id = userId`. */
  function RunAssetUpdate(assets: seq<Asset>, applied: seq<Candidate>, userId: int, assetId: int, now: int): seq<Asset> {
    MapWhere(assets, (a: Asset) => IsTarget(a, userId, assetId), (a: Asset) => AssetAfter(a, applied, now))
  }

  /** The update patches the one targeted row, leaves every other row as it was, and keeps ids SERIAL. */
  lemma RunAssetUpdateIsPatch(assets: seq<Asset>, data: AssetUpdateData, userId: int, assetId: int, now: int, next: int)
    requires Serial(assets, AssetKey, next)
    ensures var r := RunAssetUpdate(assets, Supplied(AssetCandidates(data)), userId, assetId, now);
      && |r| == |assets|
      && (forall i :: 0 <= i < |r| ==> r[i] == if IsTarget(assets[i], userId, assetId) then PatchAsset(assets[i], data, now) else assets[i])
      && Serial(r, AssetKey, next)
  {
    var applied := Supplied(AssetCandidates(data));
    forall a: Asset ensures AssetAfter(a, applied, now) == PatchAsset(a, data, now) {
      AssetSetClause(a, data, now);
    }
    MapWhereKeepsSerial(assets, (a: Asset) => IsTarget(a, userId, assetId),
                        (a: Asset) => AssetAfter(a, applied, now), AssetKey, next);
  }

  /**
   * Checks ownership, builds the statement, and runs it: the targeted row becomes its patch.
   * `statement` is the `UPDATE` that was sent, when one was.
   */
  method UpdateAsset(db: Database, userId: int, assetId: int, data: AssetUpdateData, now: int)
    returns (r: Result<Asset, Error>, statement: Option<UpdateStatement>)
    requires db.Valid()
    modifies db`assets
    ensures db.Valid()
    ensures !OwnsAsset(old(db.assets), assetId, userId) ==> r == Failure(AssetNotFound)
    ensures OwnsAsset(old(db.assets), assetId, userId) && Supplied(AssetCandidates(data)) == [] ==>
      r == Failure(NothingToUpdate)
    ensures r.Success? <==> OwnsAsset(old(db.assets), assetId, userId) && Supplied(AssetCandidates(data)) != []
    ensures r.Failure? ==> db.assets == old(db.assets) && statement == None
    ensures r.Success? ==> statement.Some?
    ensures r.Success? ==>
      Describes(statement.value, "assets", Supplied(AssetCandidates(data)), ["id", "user_id"], [Int(assetId), Int(userId)])
    ensures r.Success? ==> |db.assets| == |old(db.assets)| && forall i :: 0 <= i < |db.assets| ==>
      db.assets[i] == if IsTarget(old(db.assets)[i], userId, assetId) then PatchAsset(old(db.assets)[i], data, now) else old(db.assets)[i]
    ensures r.Success? ==> exists a :: a in old(db.assets) && IsTarget(a, userId, assetId) && r.value == PatchAsset(a, data, now)
  {
    var found := GetAssetById(db.assets, userId, assetId);
    if found.Failure? {
      return Failure(AssetNotFound), None;
    }
    var built := BuildUpdate("assets", AssetCandidates(data), ["id", "user_id"], [Int(assetId), Int(userId)]);
    if built.Failure? {
      return Failure(built.error), None;
    }
    RunAssetUpdateIsPatch(db.assets, data, userId, assetId, now, db.nextAssetId);
    db.assets := RunAssetUpdate(db.assets, Supplied(AssetCandidates(data)), userId, assetId, now);
    r, statement := Success(PatchAsset(found.value, data, now)), Some(built.value);
  }

  /** `DELETE FROM assets WHERE id = $1 AND user_id = $2`, throwing when `rowCount` is 0. */
  method DeleteAsset(db: Database, userId: int, assetId: int) returns (r: Result<(), Error>)
    requires db.Valid()
    modifies db`assets
    ensures db.Valid()
    ensures r.Success? <==> OwnsAsset(old(db.assets), assetId, userId)
    ensures r.Failure? ==> r.error == AssetNotFound && db.assets == old(db.assets)
    ensures r.Success? ==> |db.assets| == |old(db.assets)| - 1
    ensures r.Success? ==> forall a :: a in db.assets <==> a in old(db.assets) && !IsTarget(a, userId, assetId)
  {
    var keep := (a: Asset) => !IsTarget(a, userId, assetId);
    var kept := Filter(db.assets, keep);
    FilterRemovesNothing(db.assets, keep);
    var rowCount := |db.assets| - |kept|;
    if rowCount == 0 {
      return Failure(AssetNotFound);
    }
    FilterRemovesAtMostOne(db.assets, keep, AssetKey, assetId);
    FilterKeepsSerial(db.assets, keep, AssetKey, db.nextAssetId);
    db.assets := kept;
    r := Success(());
  }

  /** The counters `getAssetWithMaintenance` reports (the cost total is not part of this model). */
  datatype AssetStatistics = AssetStatistics(
    totalMaintenance: nat, completedMaintenance: nat, pendingMaintenance: nat, totalSchedules: nat)

  /** An asset with its logs, its schedules and the counters. */
  datatype AssetWithMaintenance = AssetWithMaintenance(
    asset: Asset, maintenanceLogs: seq<MaintenanceLog>, maintenanceSchedules: seq<MaintenanceSchedule>,
    statistics: AssetStatistics)

  /**
   * The ownership check, then the asset's logs `ORDER BY service_date DESC`, its schedules
   * `ORDER BY is_completed, due_date NULLS LAST`, and the COUNT / SUM(CASE ...) statistics.
   */
  function GetAssetWithMaintenance(assets: seq<Asset>, logs: seq<MaintenanceLog>, schedules: seq<MaintenanceSchedule>,
                                   userId: int, assetId: int): (r: Result<AssetWithMaintenance, Error>)
    ensures r.Success? <==> OwnsAsset(assets, assetId, userId)
    ensures r.Failure? ==> r.error == AssetNotFound
    ensures r.Success? ==>
      var w := r.value;
      && w.asset in assets && IsTarget(w.asset, userId, assetId)
      && (forall l :: l in w.maintenanceLogs <==> l in logs && l.assetId == assetId)
      && SortedBy(w.maintenanceLogs, ServiceDateDesc)
      && (forall s :: s in w.maintenanceSchedules <==> s in schedules && s.assetId == assetId)
      && SortedBy(w.maintenanceSchedules, PendingThenDueDate)
      && w.statistics.totalMaintenance == |w.maintenanceLogs|
      && w.statistics.totalSchedules == |w.maintenanceSchedules|
      && w.statistics.totalSchedules == w.statistics.completedMaintenance + w.statistics.pendingMaintenance
      && w.statistics.completedMaintenance == |Filter(w.maintenanceSchedules, Completed)|
      && w.statistics.pendingMaintenance == |Filter(w.maintenanceSchedules, Pending)|
      && (forall l ::
            multiset(w.maintenanceLogs)[l] == (if l.assetId == assetId then multiset(logs)[l] else 0))
      && (forall s ::
            multiset(w.maintenanceSchedules)[s] == (if s.assetId == assetId then multiset(schedules)[s] else 0))
  {
    match GetAssetById(assets, userId, assetId)
    case Failure(e) => Failure(e)
    case Success(asset) =>
      var ofAsset := (l: MaintenanceLog) => l.assetId == assetId;
      var scheduledFor := (s: MaintenanceSchedule) => s.assetId == assetId;
      var assetLogs := Filter(logs, ofAsset);
      var assetSchedules := Filter(schedules, scheduledFor);
      FilterCount(logs, ofAsset);
      FilterCount(schedules, scheduledFor);
      FilterPartition(assetSchedules, Completed, Pending);
      ComparatorsTotal();
      var sortedLogs := SortBy(assetLogs, ServiceDateDesc);
      var sortedSchedules := SortBy(assetSchedules, PendingThenDueDate);
      FilterCountPermutation(sortedSchedules, assetSchedules, Completed);
      FilterCountPermutation(sortedSchedules, assetSchedules, Pending);
      assert forall l :: l in sortedLogs <==> l in assetLogs by {
        assert forall l :: l in sortedLogs <==> l in multiset(sortedLogs);
      }
      assert forall s :: s in sortedSchedules <==> s in assetSchedules by {
        assert forall s :: s in sortedSchedules <==> s in multiset(sortedSchedules);
      }
      Success(AssetWithMaintenance(
        asset, sortedLogs, sortedSchedules,
        AssetStatistics(|assetLogs|, |Filter(assetSchedules, Completed)|, |Filter(assetSchedules, Pending)|, |assetSchedules|)))
  }
}
