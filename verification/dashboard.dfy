/**
 * The dashboard's data hook: it fetches the caller's assets, pending schedules and five most
 * recent logs, and derives the counters and lists the dashboard cards show.
 */
module Dashboard {
  import opened Wrappers
  import opened Records
  import opened Text
  import opened Sequences
  import opened Store
  import opened ClientRecords
  import opened StatusChips
  import opened ScheduleService
  import LogService
  import AssetService

  /** An entry of the upcoming list: a pending schedule with `due_date ?? null`. */
  datatype MaintenanceItem = MaintenanceItem(
    id: int, assetId: int, assetName: string, serviceName: string, dueDate: Option<int>, createdAt: int)

  /** An entry of the recent-activity list; `time` is the log's service date. */
  datatype ActivityItem = ActivityItem(id: int, text: string, time: int)

  datatype Stats = Stats(totalAssets: nat, pendingMaintenance: nat, overdueMaintenance: nat, completedMaintenance: nat)

  datatype DashboardData = DashboardData(
    assets: seq<Asset>, stats: Stats, upcoming: seq<MaintenanceItem>, activities: seq<ActivityItem>)

  /** The state before the first fetch settles. */
  const InitialData := DashboardData([], Stats(0, 0, 0, 0), [], [])

  /** How many assets the "recent assets" card shows. */
  const ShownAssets: nat := 5

  /** The `limit` the hook passes to `getAllLogs`. */
  const RecentLogLimit: nat := 5

  /** The overdue counter's test: a due date before the current instant (not before midnight). */
  predicate OverdueAt(row: ScheduleRow, now: int) {
    row.schedule.dueDate.Some? && row.schedule.dueDate.value < now
  }

  /** `pendingSchedules.filter(s => s.due_date && new Date(s.due_date) < new Date()).length`. */
  function OverdueCount(pending: seq<ScheduleRow>, now: int): (n: nat)
    ensures n <= |pending|
    ensures n == 0 <==> forall row :: row in pending ==> !OverdueAt(row, now)
    ensures n == |pending| <==> forall row :: row in pending ==> OverdueAt(row, now)
  {
    var late := (row: ScheduleRow) => OverdueAt(row, now);
    FilterRemovesNothing(pending, late);
    var r := OverdueRows(pending, now);
    assert r != [] ==> r[0] in r;
    |r|
  }

  /** The pending rows the overdue counter counts, each as often as the list holds it. */
  function OverdueRows(pending: seq<ScheduleRow>, now: int): (r: seq<ScheduleRow>)
    ensures forall row :: row in r <==> row in pending && OverdueAt(row, now)
    ensures forall row :: multiset(r)[row] == if OverdueAt(row, now) then multiset(pending)[row] else 0
  {
    var late := (row: ScheduleRow) => OverdueAt(row, now);
    FilterCount(pending, late);
    Filter(pending, late)
  }

  /** The counter goes up by one for each overdue row and stays put for any other. */
  lemma OverdueCountSnoc(pending: seq<ScheduleRow>, row: ScheduleRow, now: int)
    ensures OverdueCount(pending + [row], now) == OverdueCount(pending, now) + (if OverdueAt(row, now) then 1 else 0)
  {
    var before, after := OverdueRows(pending, now), OverdueRows(pending + [row], now);
    OverdueRowsSnoc(pending, row, now);
    assert |multiset(after)| == |after| && |multiset(before)| == |before|;
  }

  lemma OverdueRowsSnoc(pending: seq<ScheduleRow>, row: ScheduleRow, now: int)
    ensures multiset(OverdueRows(pending + [row], now))
            == multiset(OverdueRows(pending, now)) + if OverdueAt(row, now) then multiset{row} else multiset{}
  {
    var before, after := OverdueRows(pending, now), OverdueRows(pending + [row], now);
    var added: multiset<ScheduleRow> := if OverdueAt(row, now) then multiset{row} else multiset{};
    assert multiset(pending + [row]) == multiset(pending) + multiset{row};
    forall x ensures multiset(after)[x] == (multiset(before) + added)[x] {
      if x == row {
        assert multiset(pending + [row])[x] == multiset(pending)[x] + 1;
      } else {
        assert multiset(pending + [row])[x] == multiset(pending)[x];
      }
    }
  }

  /** Every schedule the upcoming list labels late is counted by the overdue counter. */
  lemma LateChipsAreCounted(pending: seq<ScheduleRow>, now: int)
    ensures |Filter(pending, (row: ScheduleRow) => DueDateChip(row.schedule.dueDate, now) == Late)|
            <= OverdueCount(pending, now)
  {
    FilterMonotone(pending, (row: ScheduleRow) => DueDateChip(row.schedule.dueDate, now) == Late,
                   (row: ScheduleRow) => OverdueAt(row, now));
  }

  /** The converse fails: a schedule due earlier today is counted overdue but its chip says pending. */
  lemma DueEarlierTodayCountedButPending(row: ScheduleRow, now: int)
    requires row.schedule.dueDate.Some?
    requires Dates.StartOfDay(now) <= row.schedule.dueDate.value < now
    ensures OverdueAt(row, now) && DueDateChip(row.schedule.dueDate, now) == Due
  {
  }

  const Separator := " realizado em Ativo #"

  /** `s` is a string of decimal digits whose value is `n`. */
  predicate ReadsAs(s: string, n: nat) {
    AllDigits(s) && DigitsValue(s) == n
  }

  /** `${log.service_name} realizado em Ativo #${log.asset_id}`: the service, then the asset's id. */
  function ActivityText(log: MaintenanceLog): (text: string)
    ensures |text| > |log.serviceName| + |Separator|
    ensures text[..|log.serviceName|] == log.serviceName
    ensures text[|log.serviceName|..|log.serviceName| + |Separator|] == Separator
    ensures log.assetId >= 0 ==> ReadsAs(text[|log.serviceName| + |Separator|..], log.assetId)
  {
    var text := log.serviceName + Separator + IntToString(log.assetId);
    assert text[|log.serviceName| + |Separator|..] == IntToString(log.assetId);
    if log.assetId >= 0 then
      NatToStringRoundTrip(log.assetId);
      text
    else text
  }

  function ItemOf(row: ScheduleRow): MaintenanceItem {
    MaintenanceItem(row.schedule.id, row.schedule.assetId, row.assetName, row.schedule.serviceName,
                    row.schedule.dueDate, row.schedule.createdAt)
  }

  /** What `fetchData` stores once the three requests resolve. */
  function Aggregate(assets: seq<Asset>, pending: seq<ScheduleRow>, recentLogs: seq<MaintenanceLog>, now: int)
    : (d: DashboardData)
    ensures |d.assets| == (if |assets| < ShownAssets then |assets| else ShownAssets)
    ensures d.assets == assets[..|d.assets|]
    ensures d.stats.totalAssets == |assets|
    ensures d.stats.pendingMaintenance == |pending|
    ensures d.stats.overdueMaintenance == OverdueCount(pending, now)
    ensures d.stats.overdueMaintenance <= d.stats.pendingMaintenance
    ensures d.stats.overdueMaintenance == 0 <==> forall row :: row in pending ==> !OverdueAt(row, now)
    ensures d.stats.completedMaintenance == |recentLogs|
    ensures |d.upcoming| == |pending|
    ensures forall i :: 0 <= i < |pending| ==>
      && d.upcoming[i].id == pending[i].schedule.id && d.upcoming[i].assetId == pending[i].schedule.assetId
      && d.upcoming[i].assetName == pending[i].assetName && d.upcoming[i].serviceName == pending[i].schedule.serviceName
      && d.upcoming[i].dueDate == pending[i].schedule.dueDate && d.upcoming[i].createdAt == pending[i].schedule.createdAt
    ensures |d.activities| == |recentLogs|
    ensures forall i :: 0 <= i < |recentLogs| ==>
      d.activities[i].id == recentLogs[i].id && d.activities[i].text == ActivityText(recentLogs[i])
      && d.activities[i].time == recentLogs[i].serviceDate
  {
    DashboardData(
      Take(assets, ShownAssets),
      Stats(|assets|, |pending|, OverdueCount(pending, now), |recentLogs|),
      seq(|pending|, i requires 0 <= i < |pending| => ItemOf(pending[i])),
      seq(|recentLogs|, i requires 0 <= i < |recentLogs| =>
        ActivityItem(recentLogs[i].id, ActivityText(recentLogs[i]), recentLogs[i].serviceDate)))
  }

  /** The "recent assets" card shows only the caller's assets. */
  lemma DashboardAssetsAreOwn(assets: seq<Asset>, userId: int, pending: seq<ScheduleRow>,
                              recentLogs: seq<MaintenanceLog>, now: int)
    ensures forall a :: a in Aggregate(AssetService.GetAllAssets(assets, userId), pending, recentLogs, now).assets ==>
      a in assets && a.userId == userId
  {
    var mine := AssetService.GetAllAssets(assets, userId);
    var shown := Aggregate(mine, pending, recentLogs, now).assets;
    forall a | a in shown ensures a in assets && a.userId == userId {
      var i :| 0 <= i < |shown| && shown[i] == a;
      assert a == mine[i];
    }
  }

  /** Every upcoming item is one of the caller's pending schedules. */
  lemma DashboardUpcomingArePending(assets: seq<Asset>, schedules: seq<MaintenanceSchedule>, userId: int,
                                    shownAssets: seq<Asset>, recentLogs: seq<MaintenanceLog>, now: int)
    ensures forall item :: item in Aggregate(shownAssets, GetPendingSchedules(assets, schedules, userId), recentLogs, now).upcoming ==>
      exists s :: s in schedules && s.id == item.id && !s.isCompleted && OwnsAsset(assets, s.assetId, userId)
  {
    var pending := GetPendingSchedules(assets, schedules, userId);
    var upcoming := Aggregate(shownAssets, pending, recentLogs, now).upcoming;
    forall item | item in upcoming
      ensures exists s :: s in schedules && s.id == item.id && !s.isCompleted && OwnsAsset(assets, s.assetId, userId)
    {
      var i :| 0 <= i < |upcoming| && upcoming[i] == item;
      var s := SchedulesOf(pending)[i];
      assert s in SchedulesOf(pending);
    }
  }

  /** "Completed maintenance" counts the logs of a `getAllLogs(5, ...)` answer, so never more than five. */
  lemma DashboardCompletedAtMostFive(assets: seq<Asset>, logs: seq<MaintenanceLog>, userId: int,
                                     shownAssets: seq<Asset>, pending: seq<ScheduleRow>, now: int)
    ensures Aggregate(shownAssets, pending,
                      LogService.GetAllLogs(assets, logs, userId, Some(RecentLogLimit), Some("created_at"), Some("desc")).value,
                      now).stats.completedMaintenance <= RecentLogLimit
  {
  }

  /** The hook's state: `loading`, `error` and `data`. */
  class DashboardState {
    var loading: bool
    var error: Option<string>
    var data: DashboardData

    constructor ()
      ensures loading && error.None? && data == InitialData
    {
      loading := true;
      error := None;
      data := InitialData;
    }

    /**
     * `fetchData`: the three requests run together (`Promise.all`); when all resolve the data is
     * replaced, when one rejects the error is recorded; `loading` ends false either way.
     */
    method FetchData(response: Result<(seq<Asset>, seq<ScheduleRow>, seq<MaintenanceLog>), Option<string>>, now: int)
      modifies this
      ensures !loading
      ensures response.Success? ==>
        data == Aggregate(response.value.0, response.value.1, response.value.2, now) && error == old(error)
      ensures response.Failure? ==>
        data == old(data) && error == Some(ErrorText(response.error, "Erro desconhecido"))
    {
      loading := true;
      match response {
        case Success(answers) =>
          data := Aggregate(answers.0, answers.1, answers.2, now);
        case Failure(message) =>
          error := Some(ErrorText(message, "Erro desconhecido"));
      }
      loading := false;
    }
  }
}
