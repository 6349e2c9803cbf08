# Asset maintenance manager — a Dafny model

This project models the core of a small asset-maintenance application: users register
**assets** (equipment, vehicles, ...), record **maintenance logs** against them (service, date,
description, cost) and plan **maintenance schedules** (a service due on a date or under a free-text
condition) that are later marked completed, which records a log.

The model covers two sides of the application.

- **Backend services** (`AssetService`, `LogService`, `ScheduleService`, `UserService`) work on a
  `Store.Database` object whose four tables are sequences of rows with SERIAL id counters.
  - `INSERT` appends a row, `UPDATE ... WHERE` rewrites the matching rows in place
    (`Sequences.MapWhere`), `DELETE ... WHERE` filters, and `SELECT ... ORDER BY ... LIMIT` is
    `Filter`, then the stable `SortBy`, then `Take`.
  - Every asset-scoped query is checked against ownership: a log or a schedule belongs to whoever
    owns its asset (`Store.OwnsAsset`, `OwnsLog`, `OwnsSchedule`).
  - `Database.Valid` holds the table invariants every service preserves: ids are unique and below
    the next SERIAL value, and usernames and emails are unique.
  - The dynamic `UPDATE ... SET` builder of each `update*` service is one loop,
    `SetClause.BuildSetClause`, over the candidate columns. A lemma per table proves that applying
    the supplied columns in the builder's order equals a declarative patch of the row.
- **Client rules** (`ListFilters`, `StatusChips`, `Dashboard`, `FormModals`, `Pages`).
  - The list pages' case-insensitive search and their pagination.
  - The status chips and counters.
  - The form dialogs' state and what they submit.
  - The page handlers: the request each one sends and the snackbar it shows.
  - The schedules page's two-step completion flow (create a log, then mark the schedule completed
    with that log's id). It is composed end to end with the backend services on one `Database`.

Dates are instants in milliseconds; "now" and "today" are parameters. Costs are integer cents.
JavaScript's `undefined` / `null` / value for an update property is
`Patch<Option<T>>` (`Absent`, `Present(None)`, `Present(Some(v))`); a string the code only tests for
truthiness is `Option<string>` (with `Some("")` falsy).

Behaviour kept as the code has it:
- the search box of a list page does not reset the page number;
- the dashboard's overdue counter compares with the current instant, while the chips compare with
  today's midnight (`Dashboard.DueEarlierTodayCountedButPending`);
- `completeSchedule` checks neither the schedule's status nor the log's owner, and its `cost`
  parameter is unused;
- "completed maintenance" on the dashboard counts only the five logs it fetched;
- the schedules page's completion handler catches every error, so the dialog's `onConfirm` never
  rejects and the dialog always closes;
- `updateUser`'s uniqueness query compares a supplied empty username or email, although an empty
  value is never written.

## Model

| member | source | states |
|---|---|---|
| Text.ToLower | frontend/src/pages/Asset/AssetsPage.tsx:93-96 | `toLowerCase` keeps the length and lowers each character independently |
| Text.ToLowerIdempotent | frontend/src/pages/Asset/AssetsPage.tsx:93-96 | lowering twice is lowering once, so lowering the term and the text is a fixed point |
| Text.ContainsIff | frontend/src/pages/Asset/AssetsPage.tsx:94-95 | `includes` holds exactly when the term occurs at some index of the text |
| Text.ContainsEmpty | frontend/src/pages/Asset/AssetsPage.tsx:94-95 | every text includes the empty term, so an empty search shows everything |
| Text.NatToString | frontend/src/pages/MaintenanceSchedules/MaintenanceSchedulesPage.tsx:142 | `toString` of a natural is a non-empty string of decimal digits |
| Text.IntToString | frontend/src/pages/MaintenanceSchedules/MaintenanceSchedulesPage.tsx:142 | `toString` of an integer is non-empty and, for a non-negative one, its decimal digits |
| Text.NatToStringRoundTrip | frontend/src/pages/MaintenanceSchedules/MaintenanceSchedulesPage.tsx:142 | reading the digits back gives the number (parse of print is the identity) |
| Text.NatToStringInjective | frontend/src/pages/MaintenanceSchedules/MaintenanceSchedulesPage.tsx:142 | distinct asset ids print differently |
| Text.CentsToString | frontend/src/pages/Maintenance/MaintenanceFormModal.tsx:71 | `toString` of an amount held in cents: only digits and points for a non-negative amount, the whole number alone when there are no cents, a minus sign first for a negative one |
| Text.CentsToStringRoundTrip | frontend/src/pages/Maintenance/MaintenanceFormModal.tsx:71-93 | `parseFloat` of the cost text the form is opened with gives the cost back |
| Dates.StartOfDay | frontend/src/pages/Asset/MaintenanceScheduleList.tsx:43-44 | `setHours(0,0,0,0)`: a day boundary at or before `now`, less than a day before it |
| Sequences.Filter | backend/src/services/assetService.ts:16-22 | `WHERE`: a row is in the answer iff it is in the table and matches |
| Sequences.FilterIsSubsequence | backend/src/services/assetService.ts:16-22 | `WHERE` keeps the table's order |
| Sequences.FilterKeepsAll | frontend/src/pages/Asset/AssetsPage.tsx:93-96 | a filter every row passes returns the input unchanged |
| Sequences.FilterRemovesNothing | backend/src/services/assetService.ts:86-95 | `rowCount` is 0 iff every row survives the delete's filter |
| Sequences.FilterPartition | backend/src/services/assetService.ts:135-143 | a predicate and its negation split a table: the two counts add up to its size |
| Sequences.FilterCount | backend/src/services/maintenanceScheduleService.ts:282-302 | a `WHERE` keeps each row as often as the table holds it when it passes, and never otherwise |
| Sequences.FilterCountPermutation | backend/src/services/assetService.ts:135-143 | reordering a table does not change how many rows a `WHERE` keeps |
| Sequences.FilterAgree | frontend/src/pages/Asset/AssetsPage.tsx:93-96 | filters that agree on every row give the same answer |
| Sequences.FilterMonotone | frontend/src/hooks/useDashboardData.ts:33-35 | a weaker predicate never counts fewer rows |
| Sequences.FilterIdempotent | frontend/src/pages/Asset/AssetsPage.tsx:93-96 | filtering twice by the same predicate changes nothing |
| Sequences.MapWhere | backend/src/services/assetService.ts:74-80 | `UPDATE ... WHERE`: same length, matching rows rewritten in place, the others untouched |
| Sequences.Insert | backend/src/services/maintenanceLogService.ts:47 | inserting into a sorted list adds exactly that element |
| Sequences.InsertSorted | backend/src/services/maintenanceLogService.ts:47 | inserting into a list sorted by a total order keeps it sorted |
| Sequences.SortBy | backend/src/services/maintenanceScheduleService.ts:298 | `ORDER BY`: a permutation of the input, sorted by the comparator |
| Sequences.SortedPairwise | backend/src/services/maintenanceScheduleService.ts:298 | in sorted output under a transitive order every earlier row precedes every later one |
| Sequences.Take | backend/src/services/maintenanceLogService.ts:162-163 | `LIMIT n`: the first `min(n, length)` rows, so no row more often than the table holds it |
| Sequences.TakeSortedTop | backend/src/services/maintenanceLogService.ts:162-163 | `ORDER BY ... LIMIT n` keeps the order and returns rows that precede every row left out |
| Sequences.Page | frontend/src/pages/Asset/AssetsPage.tsx:98-101 | the page slice: at most `rowsPerPage` rows, the exact count, each the row at `page*rowsPerPage + i`, empty past the end |
| Sequences.PageCovers | frontend/src/pages/Asset/AssetsPage.tsx:98-101 | every row appears on page `i / rowsPerPage` at position `i % rowsPerPage` |
| SqlOrder.ComparatorsTotal | backend/src/services/maintenanceScheduleService.ts:298 | each `ORDER BY` of the services orders any two rows one way or the other, so the sort is defined |
| SqlOrder.SortedTail | backend/src/services/maintenanceScheduleService.ts:298 | a property closed under the order holds from its first occurrence to the end |
| SqlOrder.PendingBeforeCompleted | backend/src/services/maintenanceScheduleService.ts:298 | in `ORDER BY is_completed, ...` output no pending schedule follows a completed one |
| SqlOrder.DatedFirstAscending | backend/src/services/maintenanceScheduleService.ts:103 | `due_date NULLS LAST`: dated schedules come first, by ascending date |
| SetClause.OfString | backend/src/services/maintenanceScheduleService.ts:170-173 | a bound text parameter reads back as the value (or NULL) it was bound from |
| SetClause.OfInt | backend/src/services/maintenanceLogService.ts:118-121 | a bound integer parameter reads back as its value or NULL |
| SetClause.OfDate | backend/src/services/maintenanceScheduleService.ts:164-167 | a bound date parameter reads back as its instant or NULL |
| SetClause.Supplied | backend/src/services/maintenanceScheduleService.ts:158-186 | the columns that get a `SET` entry are supplied candidates, in order |
| SetClause.SuppliedEmpty | backend/src/services/maintenanceScheduleService.ts:188-190 | nothing is supplied iff every candidate was skipped (the "no data" error case) |
| SetClause.SuppliedPrefix | backend/src/services/maintenanceScheduleService.ts:158-186 | each `if` of the builder adds its column exactly when it is supplied |
| SetClause.Assignments | backend/src/services/maintenanceScheduleService.ts:158-186 | one `column = $n` assignment per applied column |
| SetClause.AssignmentsAt | backend/src/services/maintenanceScheduleService.ts:158-186 | the j-th assignment names the j-th applied column with placeholder `$j+1` |
| SetClause.ParamValues | backend/src/services/maintenanceScheduleService.ts:158-186 | one parameter value per applied column |
| SetClause.ParamValuesAt | backend/src/services/maintenanceScheduleService.ts:158-186 | the j-th parameter is the j-th applied column's value |
| SetClause.AppliedSnoc | backend/src/services/maintenanceScheduleService.ts:158-186 | one more column adds one assignment numbered after the others and one value |
| SetClause.BuildSetClause | backend/src/services/maintenanceScheduleService.ts:153-187 | the loop's `fields`, `values` and `paramIndex` match the supplied columns one to one, numbered from `$1` |
| SetClause.BuildUpdate | backend/src/services/userService.ts:71-107 | "no data" error iff nothing is supplied; otherwise the statement sets those columns, `updated_at`, and keys on the next placeholders |
| SetClause.ApplySuppliedSnoc | backend/src/services/maintenanceScheduleService.ts:158-186 | applying the supplied columns of a longer list applies the last one after the others |
| SetClause.ApplyInOrder2 | backend/src/services/assetService.ts:55-65 | a two-column builder applies its columns in order, skipping unsupplied ones |
| SetClause.ApplyInOrder3 | backend/src/services/userService.ts:76-93 | a three-column builder applies its columns in order |
| SetClause.ApplyInOrder5 | backend/src/services/maintenanceLogService.ts:94-122 | a five-column builder applies its columns in order |
| Store.KeysDiffer | backend/src/services/assetService.ts:86-95 | in a table with unique keys, distinct rows have distinct keys |
| Store.FilterKeepsUnique | backend/src/services/assetService.ts:86-95 | deleting rows keeps keys unique |
| Store.FilterKeepsSerial | backend/src/services/assetService.ts:86-95 | deleting rows keeps ids unique and below the SERIAL counter |
| Store.MapWhereKeepsSerial | backend/src/services/assetService.ts:74-80 | an update that keeps ids keeps the SERIAL invariant |
| Store.MapWhereKeepsUnique | backend/src/services/userService.ts:60-69 | an update keeps a key unique when no other row carries the new key |
| Store.AppendKeepsSerial | backend/src/services/assetService.ts:5-14 | inserting the row with the next SERIAL id keeps the invariant |
| Store.AppendKeepsUnique | backend/src/services/userService.ts:6-26 | inserting a row whose key is unused keeps the key unique |
| Store.FilterRemovesAtMostOne | backend/src/services/assetService.ts:86-95 | a delete by primary key removes at most one row |
| AssetService.CreateAsset | backend/src/services/assetService.ts:5-14 | appends the caller's asset with the next id and both timestamps `now`; the table stays valid |
| AssetService.GetAllAssets | backend/src/services/assetService.ts:16-22 | exactly the caller's assets, in table order |
| AssetService.GetAssetById | backend/src/services/assetService.ts:24-35 | found iff the caller owns that asset; otherwise "asset not found" |
| AssetService.PatchAsset | backend/src/services/assetService.ts:51-80 | an update never changes id, owner or `created_at`, and stamps `updated_at` |
| AssetService.AssetSetClause | backend/src/services/assetService.ts:51-80 | applying the built `SET` clause to a row equals patching it with the supplied fields |
| AssetService.RunAssetUpdateIsPatch | backend/src/services/assetService.ts:74-80 | the `UPDATE` patches exactly the caller's row with that id and keeps ids valid |
| AssetService.UpdateAsset | backend/src/services/assetService.ts:37-84 | not owned: "not found"; nothing supplied: "no data"; success exactly when the caller owns the asset and some field is supplied; the statement describes the supplied columns keyed on id and owner, exactly the target row is patched, and the patched row is returned |
| AssetService.DeleteAsset | backend/src/services/assetService.ts:86-95 | succeeds iff the caller owns the asset; removes exactly that row; otherwise "not found" and no change |
| AssetService.GetAssetWithMaintenance | backend/src/services/assetService.ts:97-157 | owned asset with its logs (newest service date first) and its schedules (pending first, due date nulls last), each the asset's rows with their multiplicities; the total counters are the list lengths, `completedMaintenance` and `pendingMaintenance` count the completed and the pending schedules, and they add up |
| LogService.CreateLog | backend/src/services/maintenanceLogService.ts:5-30 | succeeds iff the caller owns the asset; appends the log with the next id |
| LogService.GetLogsByAsset | backend/src/services/maintenanceLogService.ts:32-52 | owned asset: exactly its logs with their multiplicities, all owned by the caller, newest service date first |
| LogService.GetLogById | backend/src/services/maintenanceLogService.ts:54-69 | found iff the log exists and its asset is the caller's |
| LogService.PatchLog | backend/src/services/maintenanceLogService.ts:83-136 | an update never changes id or `created_at`, and stamps `updated_at` |
| LogService.LogSetClause | backend/src/services/maintenanceLogService.ts:83-136 | applying the built `SET` clause equals patching the row with the supplied fields |
| LogService.RunLogUpdateIsPatch | backend/src/services/maintenanceLogService.ts:131-136 | the `UPDATE` patches exactly the row with that id and keeps ids valid |
| LogService.UpdatedLogStaysOwned | backend/src/services/maintenanceLogService.ts:87-98 | when the new asset passes the check, the updated log still belongs to the caller |
| LogService.ExecuteLogUpdate | backend/src/services/maintenanceLogService.ts:131-136 | runs the `UPDATE` on the table, patching the row with that id |
| LogService.UpdateLog | backend/src/services/maintenanceLogService.ts:71-140 | not owned: "not found"; a new asset not owned: "new asset not found"; nothing supplied: "no data"; success exactly when the log is owned, any new asset is owned and some field is supplied; else the target is patched and stays the caller's |
| LogService.DeleteLog | backend/src/services/maintenanceLogService.ts:142-153 | succeeds iff the caller owns the log; removes exactly that row |
| LogService.UserLogs | backend/src/services/maintenanceLogService.ts:158-161 | the join on assets keeps exactly the caller's logs, each as often as the table holds it |
| LogService.GetRecentLogs | backend/src/services/maintenanceLogService.ts:155-168 | exactly `min(limit, count)` (limit 5 by default) of the caller's logs, none more often than the table holds it, newest first, and no omitted log is newer than one returned |
| LogService.LogOrderOf | backend/src/services/maintenanceLogService.ts:187-191 | a whitelisted sort column with `desc` or ascending; anything else falls back to `created_at DESC` |
| LogService.OrderByClause | backend/src/services/maintenanceLogService.ts:187-191 | the rendered `ORDER BY` is the chosen order's text |
| LogService.RenderInjective | backend/src/services/maintenanceLogService.ts:187-191 | different orders render different clauses, so the text fixes the order |
| LogService.LogBeforeTotal | backend/src/services/maintenanceLogService.ts:187-191 | each selectable order (nulls as PostgreSQL places them) compares any two logs |
| LogService.LogBeforeTransitive | backend/src/services/maintenanceLogService.ts:187-191 | each selectable order is transitive, so a sorted list is ordered pairwise |
| LogService.GetAllLogs | backend/src/services/maintenanceLogService.ts:170-201 | a negative limit (truthy, so sent as `LIMIT -n`) fails with the database's error; otherwise only the caller's logs, none more often than the table holds it, in the requested order; with a positive limit exactly `min(limit, count)` rows, and no omitted log of the caller's comes before a returned one; with no limit or 0 all of the caller's logs with their multiplicities |
| LogService.SortLogs | backend/src/services/maintenanceLogService.ts:187-191 | sorting by a selectable order is a permutation in which every row may precede every later one |
| LogService.OrderedLogs | backend/src/services/maintenanceLogService.ts:186-196 | `ORDER BY` then, for a non-zero `n`, `LIMIT n` over the caller's logs: only the caller's logs, in order, exactly `min(n, count)` of them when `n > 0` and all of them with their multiplicities when `n` is 0, none omitted that comes before a returned one |
| LogService.TakeLogsTop | backend/src/services/maintenanceLogService.ts:193-196 | `LIMIT n` on sorted logs keeps rows that may precede every row it drops |
| ScheduleService.NewSchedule | backend/src/services/maintenanceScheduleService.ts:29-42 | the inserted row: `log_id`/`due_condition` NULL when falsy, `is_completed` true only when sent true |
| ScheduleService.CreateSchedule | backend/src/services/maintenanceScheduleService.ts:5-45 | asset not owned: "asset not found"; a given log not owned: "log not found"; else appends the new row with the next id |
| ScheduleService.GetSchedulesByAsset | backend/src/services/maintenanceScheduleService.ts:47-74 | owned asset: exactly its schedules with their multiplicities (pending only unless asked), due date nulls last then newest |
| ScheduleService.AssetNameOf | backend/src/services/maintenanceScheduleService.ts:90-107 | the joined `asset_name` is the name of the caller's asset |
| ScheduleService.JoinAssets | backend/src/services/maintenanceScheduleService.ts:90-107 | the join keeps the schedules in order and names each after its asset |
| ScheduleService.SchedulesOf | backend/src/services/maintenanceScheduleService.ts:90-107 | projecting the joined rows back to schedules, position by position |
| ScheduleService.ListJoined | backend/src/services/maintenanceScheduleService.ts:282-302 | the caller's schedules that pass the filter, each as often as the table holds it, joined with asset names, sorted by the order |
| ScheduleService.GetPendingSchedules | backend/src/services/maintenanceScheduleService.ts:90-107 | exactly the caller's pending schedules with their multiplicities, `due_date NULLS LAST` |
| ScheduleService.GetAllSchedules | backend/src/services/maintenanceScheduleService.ts:282-302 | exactly the caller's schedules with their multiplicities (pending only unless asked), pending first, then due date, then newest |
| ScheduleService.AllSchedulesPendingFirst | backend/src/services/maintenanceScheduleService.ts:298 | no pending schedule is listed after a completed one |
| ScheduleService.PendingSchedulesDatedFirst | backend/src/services/maintenanceScheduleService.ts:103 | pending schedules come dated first, by ascending date, undated last |
| ScheduleService.GetScheduleById | backend/src/services/maintenanceScheduleService.ts:109-124 | found iff the schedule exists and its asset is the caller's |
| ScheduleService.PatchSchedule | backend/src/services/maintenanceScheduleService.ts:153-200 | an update never changes id, asset or `created_at`, and stamps `updated_at` |
| ScheduleService.ScheduleSetClause | backend/src/services/maintenanceScheduleService.ts:153-200 | applying the built `SET` clause equals patching the row with the supplied fields |
| ScheduleService.RunScheduleUpdateIsPatch | backend/src/services/maintenanceScheduleService.ts:195-200 | the `UPDATE` patches exactly the row with that id and keeps ids valid |
| ScheduleService.UpdatedScheduleStaysOwned | backend/src/services/maintenanceScheduleService.ts:126-204 | the updated schedule is still the caller's |
| ScheduleService.ExecuteScheduleUpdate | backend/src/services/maintenanceScheduleService.ts:195-200 | runs the `UPDATE` on the table, patching the row with that id |
| ScheduleService.UpdateSchedule | backend/src/services/maintenanceScheduleService.ts:126-204 | not owned: "not found"; a sent log not owned: "log not found"; "no data" iff nothing supplied; success exactly when the schedule is owned, any sent log is owned and some field is supplied; else the target is patched and stays the caller's |
| ScheduleService.DeleteSchedule | backend/src/services/maintenanceScheduleService.ts:206-217 | succeeds iff the caller owns the schedule; removes exactly that row |
| ScheduleService.Complete | backend/src/services/maintenanceScheduleService.ts:246-252 | completing sets `is_completed`, `log_id` (NULL when falsy) and `updated_at`, and nothing else |
| ScheduleService.CompleteSchedule | backend/src/services/maintenanceScheduleService.ts:219-266 | succeeds iff the caller owns the schedule; that row becomes completed with the log id |
| ScheduleService.CompletedLeavesPending | backend/src/services/maintenanceScheduleService.ts:90-107 | a completed schedule is in neither the pending list nor the default full list |
| UserService.CreateUser | backend/src/services/userService.ts:6-26 | "taken" iff a user has that username or email; else appends the user with the hashed password, returned without the hash |
| UserService.GetAllUsers | backend/src/services/userService.ts:28-34 | every user, in order, without the password hash |
| UserService.GetUserById | backend/src/services/userService.ts:36-47 | found iff a user has that id; otherwise "user not found" |
| UserService.PatchUser | backend/src/services/userService.ts:71-107 | id and `created_at` kept; username and email stay or become the supplied non-empty value |
| UserService.UserSetClause | backend/src/services/userService.ts:71-107 | applying the built `SET` clause equals patching the user with the supplied fields |
| UserService.RunUserUpdateIsPatch | backend/src/services/userService.ts:100-107 | without a conflict the `UPDATE` patches that user and keeps ids, usernames and emails unique |
| UserService.ExecuteUserUpdate | backend/src/services/userService.ts:100-107 | runs the `UPDATE` on the table, patching the user with that id |
| UserService.UpdateUser | backend/src/services/userService.ts:49-111 | no such user: "not found"; another user holds the name or email: "taken"; "no data" iff nothing supplied; success exactly when the user exists, nothing clashes and some field is supplied; else that user is patched |
| UserService.DeleteUser | backend/src/services/userService.ts:113-118 | succeeds iff a user has that id; removes exactly that row |
| ListFilters.MentionsEmpty | frontend/src/pages/Asset/AssetsPage.tsx:93-96 | every text mentions the empty search term |
| ListFilters.MentionsIgnoresCase | frontend/src/pages/Asset/AssetsPage.tsx:93-96 | the search is case-insensitive in its term |
| ListFilters.FilterAssets | frontend/src/pages/Asset/AssetsPage.tsx:93-96 | exactly the assets whose name or description mentions the term, in order; all of them for an empty term |
| ListFilters.AssetSearchIgnoresCase | frontend/src/pages/Asset/AssetsPage.tsx:93-96 | lowering the term does not change the asset list |
| ListFilters.FilterLogs | frontend/src/pages/Maintenance/MaintenancePage.tsx:123-126 | exactly the logs whose service or asset name mentions the term, in order; all for an empty term |
| ListFilters.LogSearchIgnoresCase | frontend/src/pages/Maintenance/MaintenancePage.tsx:123-126 | lowering the term does not change the log list |
| ListFilters.FilterSchedules | frontend/src/pages/MaintenanceSchedules/MaintenanceSchedulesPage.tsx:140-143 | exactly the schedules whose service mentions the term or whose asset id contains it; all for an empty term |
| ListFilters.SearchByAssetId | frontend/src/pages/MaintenanceSchedules/MaintenanceSchedulesPage.tsx:142 | searching for a schedule's asset id always finds it |
| StatusChips.LabelsDistinct | frontend/src/pages/Asset/MaintenanceScheduleList.tsx:17-67 | different chips show different labels |
| StatusChips.ScheduleChip | frontend/src/pages/Asset/MaintenanceScheduleList.tsx:17-67 | done iff completed; undated iff pending without date; late iff due before today's midnight; pending otherwise |
| StatusChips.CompletedIgnoresDate | frontend/src/pages/Asset/MaintenanceScheduleList.tsx:18-28 | a completed schedule is done whatever its due date |
| StatusChips.DueDateChip | frontend/src/pages/Dashboard/UpcomingMaintenance.tsx:9-47 | never done, and for a pending schedule the same chip as the schedule list |
| StatusChips.DueDateText | frontend/src/pages/Asset/MaintenanceScheduleList.tsx:85 | the formatted due date, or "Não definida" |
| StatusChips.ConditionText | frontend/src/pages/Asset/MaintenanceScheduleList.tsx:87 | the condition when non-empty, otherwise "Não especificado"; never empty |
| StatusChips.UpcomingLines | frontend/src/pages/Dashboard/UpcomingMaintenance.tsx:66-69 | the service line, plus a "Vencimento" line exactly when there is a due date |
| StatusChips.CompletionText | frontend/src/pages/MaintenanceSchedules/MaintenanceSchedulesPage.tsx:204-206 | the status column reads like the done chip when completed and the pending chip otherwise |
| Dashboard.OverdueCount | frontend/src/hooks/useDashboardData.ts:33-35 | at most the pending count; zero iff none is overdue; all iff all are |
| Dashboard.OverdueRows | frontend/src/hooks/useDashboardData.ts:33-35 | the `filter`: each pending schedule due before now, as often as the list holds it, and nothing else |
| Dashboard.OverdueRowsSnoc | frontend/src/hooks/useDashboardData.ts:33-35 | one more pending row adds itself to the filtered rows iff it is overdue |
| Dashboard.OverdueCountSnoc | frontend/src/hooks/useDashboardData.ts:33-35 | the counter is the number of overdue rows: one more row adds one iff it is overdue (and the empty list counts zero) |
| Dashboard.LateChipsAreCounted | frontend/src/hooks/useDashboardData.ts:33-35 | every schedule the upcoming list marks late is in the overdue count |
| Dashboard.DueEarlierTodayCountedButPending | frontend/src/hooks/useDashboardData.ts:33-35 | a schedule due earlier today is counted overdue yet its chip says pending |
| Dashboard.ActivityText | frontend/src/hooks/useDashboardData.ts:51 | the text is the service name, " realizado em Ativo #", then digits that read as the asset id |
| Dashboard.Aggregate | frontend/src/hooks/useDashboardData.ts:37-54 | the first five assets; total and pending counts, the overdue counter `OverdueCount` of the pending list, and the completed count; one upcoming item per pending schedule carrying its id, asset id, asset name, service, due date and creation time; one activity per log |
| Dashboard.DashboardAssetsAreOwn | frontend/src/hooks/useDashboardData.ts:27-31 | the recent-assets card shows only the caller's assets |
| Dashboard.DashboardUpcomingArePending | frontend/src/hooks/useDashboardData.ts:27-31 | every upcoming item is one of the caller's pending schedules |
| Dashboard.DashboardCompletedAtMostFive | frontend/src/hooks/useDashboardData.ts:30 | "completed maintenance" never exceeds five |
| Dashboard.DashboardState.constructor | frontend/src/hooks/useDashboardData.ts:8-20 | loading, no error, empty data |
| Dashboard.DashboardState.FetchData | frontend/src/hooks/useDashboardData.ts:23-60 | all answers: data replaced by their aggregate; a rejection: data kept and the error text recorded; loading ends false |
| FormModals.SanitizeCost | frontend/src/pages/Maintenance/MaintenanceFormModal.tsx:155 | keeps each digit and dot exactly as often as the input has it, in order, and no other character; a clean text is unchanged |
| FormModals.SanitizeCostIdempotent | frontend/src/pages/MaintenanceSchedules/CompleteMaintenanceModal.tsx:50 | sanitising twice is sanitising once |
| FormModals.ScheduleForm.constructor | frontend/src/pages/MaintenanceSchedules/MaintenanceScheduleFormModal.tsx:45-49 | no asset, empty name, no date or condition, date mode |
| FormModals.ScheduleForm.OnOpen | frontend/src/pages/MaintenanceSchedules/MaintenanceScheduleFormModal.tsx:63-79 | on opening, copies the edited schedule (date mode iff it has a date) or resets |
| FormModals.ScheduleForm.SaveDisabled | frontend/src/pages/MaintenanceSchedules/MaintenanceScheduleFormModal.tsx:165 | disabled iff no asset, no name, or condition mode without a condition |
| FormModals.ScheduleForm.Submit | frontend/src/pages/MaintenanceSchedules/MaintenanceScheduleFormModal.tsx:81-93 | nothing without an asset; never both a date and a condition; the other one sent as null; an enabled save always submits |
| FormModals.MaintenanceForm.constructor | frontend/src/pages/Maintenance/MaintenanceFormModal.tsx:46-50 | no asset, empty texts, today's date, cost "0" |
| FormModals.MaintenanceForm.OnOpen | frontend/src/pages/Maintenance/MaintenanceFormModal.tsx:64-80 | on opening, copies the edited log with its cost written as `toString` writes the amount (`12.5` for 1250 cents) or resets; the cost text is clean |
| FormModals.MaintenanceForm.TypeCost | frontend/src/pages/Maintenance/MaintenanceFormModal.tsx:155 | the cost field holds the sanitised input |
| FormModals.MaintenanceForm.SaveDisabled | frontend/src/pages/Maintenance/MaintenanceFormModal.tsx:167 | disabled iff no asset, no service name or no date |
| FormModals.MaintenanceForm.Submit | frontend/src/pages/Maintenance/MaintenanceFormModal.tsx:82-95 | nothing without an asset, otherwise the fields; an enabled save submits a named, dated log |
| FormModals.CompleteModal.constructor | frontend/src/pages/MaintenanceSchedules/CompleteMaintenanceModal.tsx:27-28 | cost "0", not loading |
| FormModals.CompleteModal.TypeCost | frontend/src/pages/MaintenanceSchedules/CompleteMaintenanceModal.tsx:50 | the cost field holds the sanitised input |
| FormModals.CompleteModal.HandleConfirm | frontend/src/pages/MaintenanceSchedules/CompleteMaintenanceModal.tsx:30-38 | loading on before `onConfirm`, closed only when it resolves, loading off at the end on both paths |
| ClientRecords.ErrorText | frontend/src/pages/Asset/AssetsPage.tsx:61-67 | an `Error`'s message, otherwise the fallback |
| ClientRecords.Feedback | frontend/src/pages/Asset/AssetsPage.tsx:41-68 | an open snackbar, success with the success text iff the request resolved, else the error text |
| Pages.AssetsPage.constructor | frontend/src/pages/Asset/AssetsPage.tsx:11-23 | empty list, empty search, first page of five, closed modal and snackbar |
| Pages.AssetsPage.Shown | frontend/src/pages/Asset/AssetsPage.tsx:93-101 | exactly the current page of the matching assets: the row count the slice gives, and row `i` is the matching asset at `page*rowsPerPage + i` |
| Pages.AssetsPage.Search | frontend/src/pages/Asset/AssetsPage.tsx:125 | the search box sets the term (the page is kept) |
| Pages.AssetsPage.ChangeRowsPerPage | frontend/src/pages/Asset/AssetsPage.tsx:179-182 | new page size and back to the first page |
| Pages.AssetsPage.Edit | frontend/src/pages/Asset/AssetsPage.tsx:70-73 | the modal opens on that asset |
| Pages.AssetsPage.Delete | frontend/src/pages/Asset/AssetsPage.tsx:75-91 | deletes that id; reloads iff it succeeded; the matching snackbar |
| Pages.AssetsPage.SubmitAsset | frontend/src/pages/Asset/AssetsPage.tsx:41-68 | update when editing, else create; on success reload and close the modal, on failure keep it; the matching snackbar |
| Pages.SchedulePreview | frontend/src/pages/Maintenance/MaintenancePage.tsx:264-273 | the first five schedules with asset, service, the due date when there is one and the due condition otherwise, and the completed/pending text |
| Pages.MaintenancePage.constructor | frontend/src/pages/Maintenance/MaintenancePage.tsx:14-28 | empty lists, empty search, first page of five, closed modal and snackbar |
| Pages.MaintenancePage.Shown | frontend/src/pages/Maintenance/MaintenancePage.tsx:123-131 | exactly the current page of the matching logs: the row count the slice gives, and row `i` is the matching log at `page*rowsPerPage + i` |
| Pages.MaintenancePage.Search | frontend/src/pages/Maintenance/MaintenancePage.tsx:169 | the search box sets the term |
| Pages.MaintenancePage.ChangeRowsPerPage | frontend/src/pages/Maintenance/MaintenancePage.tsx:226-229 | new page size and back to the first page |
| Pages.MaintenancePage.Edit | frontend/src/pages/Maintenance/MaintenancePage.tsx:100-103 | the modal opens on that log |
| Pages.MaintenancePage.Delete | frontend/src/pages/Maintenance/MaintenancePage.tsx:105-121 | deletes that id; reloads iff it succeeded; the matching snackbar |
| Pages.MaintenancePage.SubmitMaintenance | frontend/src/pages/Maintenance/MaintenancePage.tsx:65-98 | update with every field when editing, else create; reload and close on success; the matching snackbar |
| Pages.ScheduleActions | frontend/src/pages/MaintenanceSchedules/MaintenanceSchedulesPage.tsx:208-212 | the complete button iff the schedule is pending; edit and delete always |
| Pages.SentDate | frontend/src/pages/MaintenanceSchedules/MaintenanceSchedulesPage.tsx:100-105 | a date is sent iff the form gave one, and it is the form's date |
| Pages.SentCondition | frontend/src/pages/MaintenanceSchedules/MaintenanceSchedulesPage.tsx:100-105 | a condition is sent iff the form gave a non-empty one, and it is the form's condition |
| Pages.CreatePayload | frontend/src/pages/MaintenanceSchedules/MaintenanceSchedulesPage.tsx:114-120 | the form's asset and service, not completed, no log; the form's date iff it gave one, and the form's condition iff it gave a non-empty one |
| Pages.EditPayload | frontend/src/pages/MaintenanceSchedules/MaintenanceSchedulesPage.tsx:100-105 | service name; date and condition always sent, the form's date when it gave one and the form's non-empty condition, null otherwise; status and log untouched |
| Pages.CreatedSchedulesArePending | frontend/src/pages/MaintenanceSchedules/MaintenanceSchedulesPage.tsx:114-120 | a schedule created from the page starts pending |
| Pages.EditedScheduleHasDateOrCondition | frontend/src/pages/MaintenanceSchedules/MaintenanceSchedulesPage.tsx:100-105 | an edit from the form never leaves both a date and a condition |
| Pages.FindSchedule | frontend/src/pages/MaintenanceSchedules/MaintenanceSchedulesPage.tsx:38-41 | `find`: none iff no row has the id, else the first row with it |
| Pages.CompletionLog | frontend/src/pages/MaintenanceSchedules/MaintenanceSchedulesPage.tsx:48-54 | the log takes the schedule's asset and service, today's date and the cost |
| Pages.SchedulesPage.constructor | frontend/src/pages/MaintenanceSchedules/MaintenanceSchedulesPage.tsx:23-36 | empty list and search, first page of five, nothing being edited or completed |
| Pages.SchedulesPage.Shown | frontend/src/pages/MaintenanceSchedules/MaintenanceSchedulesPage.tsx:140-148 | exactly the current page of the matching schedules: the row count the slice gives, and row `i` is the matching schedule at `page*rowsPerPage + i` |
| Pages.SchedulesPage.Search | frontend/src/pages/MaintenanceSchedules/MaintenanceSchedulesPage.tsx:175 | the search box sets the term |
| Pages.SchedulesPage.ChangeRowsPerPage | frontend/src/pages/MaintenanceSchedules/MaintenanceSchedulesPage.tsx:257-260 | new page size and back to the first page |
| Pages.SchedulesPage.CompleteClick | frontend/src/pages/MaintenanceSchedules/MaintenanceSchedulesPage.tsx:38-41 | the dialog opens on the first schedule with that id |
| Pages.SchedulesPage.CloseCompletion | frontend/src/pages/MaintenanceSchedules/MaintenanceSchedulesPage.tsx:243-247 | closing the dialog forgets the schedule |
| Pages.SchedulesPage.Edit | frontend/src/pages/MaintenanceSchedules/MaintenanceSchedulesPage.tsx:213-216 | the modal opens on that schedule |
| Pages.SchedulesPage.Delete | frontend/src/pages/MaintenanceSchedules/MaintenanceSchedulesPage.tsx:219-235 | deletes that id; reloads iff it succeeded; the matching snackbar |
| Pages.SchedulesPage.SubmitSchedule | frontend/src/pages/MaintenanceSchedules/MaintenanceSchedulesPage.tsx:94-138 | the edit payload when editing, else the create payload; reload and close on success; the matching snackbar |
| Pages.SchedulesPage.ConfirmComplete | frontend/src/pages/MaintenanceSchedules/MaintenanceSchedulesPage.tsx:43-76 | nothing without a schedule; asset not owned: error and no change; else one log appended, and iff the schedule is the caller's it is completed with that log's id and leaves the pending list, with the success snackbar |

## Left out

- Controllers, routes, the authentication middleware and the auth service: HTTP parsing, status codes and tokens are outside the core. The signed-in user's id is a parameter.
- The database pool, the migrations and the schema's foreign keys and cascades. Deleting a user or an asset does not cascade to other tables here.
- Column projections: the services' `RETURNING` and `SELECT` lists are not modelled; rows are returned whole, except that user lookups drop the password hash.
- Concurrency: the gap between a service's ownership check and its update, and `Promise.all` ordering. Each call runs atomically.
- Floating point: `toFixed` and the `SUM(cost)` total are left out, and `parseFloat` is read only on decimal texts with at most two digits after the point (`Text.ReadCents`). Costs are integer cents, the completion dialog's amount is an integer parameter, and `getAssetWithMaintenance` reports no cost total.
- FormModals.MaintenanceForm.Submit: the cost is handed on as the field's text; the `parseFloat(cost) || 0` conversion is not modelled.
- The controller's `parseInt(_limit)`: the limit reaches `LogService.GetAllLogs` as a number or `None`; a text that parses to `NaN` is falsy and is passed as `None`.
- Date parsing, formatting, locales and time zones. Dates are instants in UTC milliseconds; formatting is a parameter `format`.
- Text.ToLower: lowers ASCII and Latin-1 letters only, not all of Unicode.
- Password hashing is a parameter `hash`. HTTP error texts shown by the schedules page are a parameter `httpMessage`.
- The client's axios service modules. A page handler returns the request it sends and takes the outcome as a parameter; re-fetching after success is the `reload` flag.
- The client views use the client interfaces' types, where description and cost are never null.
- FormModals.CompleteModal.ConfirmDisabled: the button's `disabled` is a predicate on `loading`, without a contract of its own.
- Rendering: tables, dialogs and chips' colours. Only the texts, counters and state are modelled.
- Ordering ties: SQL leaves rows with equal sort keys in any order; the model keeps table order (a stable sort).
