/**
 * The three list pages of the client: their React state as the fields of an object, the
 * handlers that update it, and the request each handler sends. The two-step completion of a
 * schedule is run end to end against the services on the same database.
 */
module Pages {
  import opened Wrappers
  import opened Records
  import opened Sequences
  import opened Store
  import opened ClientRecords
  import opened ListFilters
  import opened StatusChips
  import opened FormModals
  import opened ScheduleService
  import LogService
  import Dates

  /** The rows-per-page every list page starts with. */
  const DefaultRowsPerPage: nat := 5

  /** A request to the asset endpoints. */
  datatype AssetRequest = CreateAssetRequest(create: AssetCreateData) | UpdateAssetRequest(id: int, update: AssetUpdateData)

  /** `AssetsPage`. */
  class AssetsPage {
    var assets: seq<AssetView>
    var searchTerm: string
    var page: nat
    var rowsPerPage: nat
    var openModal: bool
    var editing: Option<AssetView>
    var snackbar: Snackbar

    constructor ()
      ensures assets == [] && searchTerm == "" && page == 0 && rowsPerPage == DefaultRowsPerPage
      ensures !openModal && editing.None? && snackbar == ClosedSnackbar
    {
      assets := [];
      searchTerm := "";
      page := 0;
      rowsPerPage := DefaultRowsPerPage;
      openModal := false;
      editing := None;
      snackbar := ClosedSnackbar;
    }

    /** `paginatedAssets`: the current page of the assets that match the search. */
    function Shown(): (rows: seq<AssetView>)
      reads this
      ensures |rows| <= rowsPerPage
      ensures |rows| == if page * rowsPerPage >= |FilterAssets(assets, searchTerm)| then 0
                        else if page * rowsPerPage + rowsPerPage <= |FilterAssets(assets, searchTerm)| then rowsPerPage
                        else |FilterAssets(assets, searchTerm)| - page * rowsPerPage
      ensures forall i :: 0 <= i < |rows| ==>
        && page * rowsPerPage + i < |FilterAssets(assets, searchTerm)|
        && rows[i] == FilterAssets(assets, searchTerm)[page * rowsPerPage + i]
      ensures forall a :: a in rows ==> a in assets && AssetMatches(a, searchTerm)
    {
      var filtered := FilterAssets(assets, searchTerm);
      Page(filtered, page, rowsPerPage)
    }

    /** The search box's `onChange`; the page number is kept. */
    method Search(term: string)
      modifies this`searchTerm
      ensures searchTerm == term
    {
      searchTerm := term;
    }

    /** `onRowsPerPageChange`: the new size, back on the first page. */
    method ChangeRowsPerPage(n: nat)
      modifies this`rowsPerPage, this`page
      ensures rowsPerPage == n && page == 0
    {
      rowsPerPage := n;
      page := 0;
    }

    /** `handleEdit`. */
    method Edit(asset: AssetView)
      modifies this`editing, this`openModal
      ensures editing == Some(asset) && openModal
    {
      editing := Some(asset);
      openModal := true;
    }

    /** `handleDelete`: the delete request for that id; the list reloads when it resolves. */
    method Delete(id: int, outcome: Outcome) returns (request: int, reload: bool)
      modifies this`snackbar
      ensures request == id
      ensures reload <==> outcome.Resolved?
      ensures snackbar == Feedback(outcome, "Ativo deletado com sucesso!", "Erro ao deletar ativo")
    {
      request := id;
      reload := outcome.Resolved?;
      snackbar := Feedback(outcome, "Ativo deletado com sucesso!", "Erro ao deletar ativo");
    }

    /**
     * `handleSubmitAsset`: an update of the asset being edited, or a creation. When the request
     * resolves the list is reloaded and the dialog closes with no edit target; when it rejects
     * both stay as they were. The snackbar reports either way.
     */
    method SubmitAsset(name: string, description: string, outcome: Outcome) returns (request: AssetRequest, reload: bool)
      modifies this`openModal, this`editing, this`snackbar
      ensures old(editing).Some? ==>
        request == UpdateAssetRequest(old(editing).value.id, AssetUpdateData(Some(name), Some(description)))
      ensures old(editing).None? ==> request == CreateAssetRequest(AssetCreateData(name, Some(description)))
      ensures reload <==> outcome.Resolved?
      ensures outcome.Resolved? ==> !openModal && editing.None?
      ensures outcome.Rejected? ==> openModal == old(openModal) && editing == old(editing)
      ensures snackbar == Feedback(outcome,
        if old(editing).Some? then "Ativo atualizado com sucesso!" else "Ativo criado com sucesso!",
        "Erro ao salvar ativo")
    {
      var success: string;
      if editing.Some? {
        request := UpdateAssetRequest(editing.value.id, AssetUpdateData(Some(name), Some(description)));
        success := "Ativo atualizado com sucesso!";
      } else {
        request := CreateAssetRequest(AssetCreateData(name, Some(description)));
        success := "Ativo criado com sucesso!";
      }
      snackbar := Feedback(outcome, success, "Erro ao salvar ativo");
      reload := outcome.Resolved?;
      if outcome.Resolved? {
        openModal := false;
        editing := None;
      }
    }
  }

  /** What `MaintenanceFormModal` hands to the page, with the cost already a number. */
  datatype LogSubmission = LogSubmission(
    assetId: int, serviceName: string, serviceDate: int, description: string, cost: int)

  /** A request to the log endpoints. */
  datatype LogRequest = CreateLogRequest(create: LogCreateData) | UpdateLogRequest(id: int, update: LogUpdateData)

  /** A due-date cell: the date when there is one, the condition otherwise. */
  datatype DueCell = DateCell(date: int) | ConditionCell(condition: Option<string>)

  /** A row of the maintenance page's schedule tab. */
  datatype PreviewRow = PreviewRow(assetId: int, assetName: string, serviceName: string, due: DueCell, status: string)

  const PreviewSize: nat := 5

  function DueCellOf(s: MaintenanceSchedule): DueCell {
    if s.dueDate.Some? then DateCell(s.dueDate.value) else ConditionCell(s.dueCondition)
  }

  /** The schedule tab: the first five schedules, each "Concluído" when completed and "Pendente" otherwise. */
  function SchedulePreview(rows: seq<ScheduleRow>): (preview: seq<PreviewRow>)
    ensures |preview| == if |rows| < PreviewSize then |rows| else PreviewSize
    ensures forall i :: 0 <= i < |preview| ==>
      && preview[i].assetId == rows[i].schedule.assetId && preview[i].assetName == rows[i].assetName
      && preview[i].serviceName == rows[i].schedule.serviceName
      && (preview[i].due.DateCell? <==> rows[i].schedule.dueDate.Some?)
      && (rows[i].schedule.dueDate.Some? ==> preview[i].due.date == rows[i].schedule.dueDate.value)
      && (rows[i].schedule.dueDate.None? ==> preview[i].due.condition == rows[i].schedule.dueCondition)
      && (preview[i].status == "Concluído" <==> rows[i].schedule.isCompleted)
      && (preview[i].status == "Pendente" <==> !rows[i].schedule.isCompleted)
  {
    var first := Take(rows, PreviewSize);
    seq(|first|, i requires 0 <= i < |first| =>
      PreviewRow(first[i].schedule.assetId, first[i].assetName, first[i].schedule.serviceName,
                 DueCellOf(first[i].schedule), CompletionText(first[i].schedule)))
  }

  /** `MaintenancePage`. */
  class MaintenancePage {
    var logs: seq<LogView>
    var schedules: seq<ScheduleRow>
    var searchTerm: string
    var page: nat
    var rowsPerPage: nat
    var openModal: bool
    var editing: Option<LogView>
    var snackbar: Snackbar

    constructor ()
      ensures logs == [] && schedules == [] && searchTerm == "" && page == 0 && rowsPerPage == DefaultRowsPerPage
      ensures !openModal && editing.None? && snackbar == ClosedSnackbar
    {
      logs := [];
      schedules := [];
      searchTerm := "";
      page := 0;
      rowsPerPage := DefaultRowsPerPage;
      openModal := false;
      editing := None;
      snackbar := ClosedSnackbar;
    }

    /** `paginatedMaintenances`: the current page of the logs that match the search. */
    function Shown(): (rows: seq<LogView>)
      reads this
      ensures |rows| <= rowsPerPage
      ensures |rows| == if page * rowsPerPage >= |FilterLogs(logs, searchTerm)| then 0
                        else if page * rowsPerPage + rowsPerPage <= |FilterLogs(logs, searchTerm)| then rowsPerPage
                        else |FilterLogs(logs, searchTerm)| - page * rowsPerPage
      ensures forall i :: 0 <= i < |rows| ==>
        && page * rowsPerPage + i < |FilterLogs(logs, searchTerm)|
        && rows[i] == FilterLogs(logs, searchTerm)[page * rowsPerPage + i]
      ensures forall l :: l in rows ==> l in logs && LogMatches(l, searchTerm)
    {
      var filtered := FilterLogs(logs, searchTerm);
      Page(filtered, page, rowsPerPage)
    }

    /** The search box's `onChange`; the page number is kept. */
    method Search(term: string)
      modifies this`searchTerm
      ensures searchTerm == term
    {
      searchTerm := term;
    }

    /** `onRowsPerPageChange`: the new size, back on the first page. */
    method ChangeRowsPerPage(n: nat)
      modifies this`rowsPerPage, this`page
      ensures rowsPerPage == n && page == 0
    {
      rowsPerPage := n;
      page := 0;
    }

    /** `handleEdit`. */
    method Edit(log: LogView)
      modifies this`editing, this`openModal
      ensures editing == Some(log) && openModal
    {
      editing := Some(log);
      openModal := true;
    }

    /** `handleDelete`: the delete request for that id; the list reloads when it resolves. */
    method Delete(id: int, outcome: Outcome) returns (request: int, reload: bool)
      modifies this`snackbar
      ensures request == id
      ensures reload <==> outcome.Resolved?
      ensures snackbar == Feedback(outcome, "Manutenção deletada com sucesso!", "Erro ao deletar manutenção")
    {
      request := id;
      reload := outcome.Resolved?;
      snackbar := Feedback(outcome, "Manutenção deletada com sucesso!", "Erro ao deletar manutenção");
    }

    /**
     * `handleSubmitMaintenance`: the whole form as an update of the log being edited, or as a new
     * log; on success the list reloads and the dialog closes with no edit target.
     */
    method SubmitMaintenance(data: LogSubmission, outcome: Outcome) returns (request: LogRequest, reload: bool)
      modifies this`openModal, this`editing, this`snackbar
      ensures old(editing).Some? ==> request == UpdateLogRequest(old(editing).value.id,
        LogUpdateData(Present(Some(data.assetId)), Some(data.serviceName), Some(data.serviceDate),
                      Present(Some(data.description)), Present(Some(data.cost))))
      ensures old(editing).None? ==> request == CreateLogRequest(
        LogCreateData(data.assetId, data.serviceName, data.serviceDate, Some(data.description), Some(data.cost)))
      ensures reload <==> outcome.Resolved?
      ensures outcome.Resolved? ==> !openModal && editing.None?
      ensures outcome.Rejected? ==> openModal == old(openModal) && editing == old(editing)
      ensures snackbar == Feedback(outcome,
        if old(editing).Some? then "Manutenção atualizada com sucesso!" else "Manutenção criada com sucesso!",
        "Erro ao salvar manutenção")
    {
      var success: string;
      if editing.Some? {
        request := UpdateLogRequest(editing.value.id,
          LogUpdateData(Present(Some(data.assetId)), Some(data.serviceName), Some(data.serviceDate),
                        Present(Some(data.description)), Present(Some(data.cost))));
        success := "Manutenção atualizada com sucesso!";
      } else {
        request := CreateLogRequest(
          LogCreateData(data.assetId, data.serviceName, data.serviceDate, Some(data.description), Some(data.cost)));
        success := "Manutenção criada com sucesso!";
      }
      snackbar := Feedback(outcome, success, "Erro ao salvar manutenção");
      reload := outcome.Resolved?;
      if outcome.Resolved? {
        openModal := false;
        editing := None;
      }
    }
  }

  /** A request to the schedule endpoints. */
  datatype ScheduleRequest =
    | CreateScheduleRequest(create: ScheduleCreateData)
    | UpdateScheduleRequest(id: int, update: ScheduleUpdateData)

  /** The buttons of a row of the schedules page. */
  datatype RowAction = CompleteAction | EditAction | DeleteAction

  /** Completion is offered only for a pending schedule; edit and delete always. */
  function ScheduleActions(s: MaintenanceSchedule): (actions: seq<RowAction>)
    ensures CompleteAction in actions <==> !s.isCompleted
    ensures EditAction in actions && DeleteAction in actions
  {
    (if s.isCompleted then [] else [CompleteAction]) + [EditAction, DeleteAction]
  }

  /** `data.due_date || x` on what the form sent: the date if there is one. */
  function SentDate(p: Patch<Option<int>>): (d: Option<int>)
    ensures d.Some? <==> NonNull(p)
    ensures NonNull(p) ==> d == p.value
  {
    if NonNull(p) then p.value else None
  }

  /** `data.due_condition || x` on what the form sent: a non-empty condition if there is one. */
  function SentCondition(p: Patch<Option<string>>): (c: Option<string>)
    ensures c.Some? <==> NonNull(p) && Given(p.value)
    ensures c.Some? ==> Given(c) && c == p.value
  {
    if NonNull(p) && Given(p.value) then p.value else None
  }

  /** The create payload: `|| undefined` on date and condition, and `is_completed: false`. */
  function CreatePayload(data: ScheduleFormData): (c: ScheduleCreateData)
    ensures c.assetId == data.assetId && c.serviceName == data.serviceName
    ensures c.isCompleted == Some(false) && c.logId.None?
    ensures c.dueDate.Some? <==> NonNull(data.dueDate)
    ensures NonNull(data.dueDate) ==> c.dueDate == data.dueDate.value
    ensures c.dueCondition.Some? <==> NonNull(data.dueCondition) && Given(data.dueCondition.value)
    ensures c.dueCondition.Some? ==> Given(c.dueCondition) && c.dueCondition == data.dueCondition.value
  {
    ScheduleCreateData(data.assetId, data.serviceName, None, SentDate(data.dueDate), SentCondition(data.dueCondition), Some(false))
  }

  /** The update payload: date and condition always sent, an empty one as `null`; `is_completed` left out. */
  function EditPayload(data: ScheduleFormData): (u: ScheduleUpdateData)
    ensures u.serviceName == Some(data.serviceName)
    ensures u.dueDate.Present? && u.dueCondition.Present?
    ensures u.dueDate.value.None? <==> !NonNull(data.dueDate)
    ensures NonNull(data.dueDate) ==> u.dueDate.value == data.dueDate.value
    ensures u.dueCondition.value.None? <==> !(NonNull(data.dueCondition) && Given(data.dueCondition.value))
    ensures u.dueCondition.value.Some? ==> u.dueCondition.value == data.dueCondition.value
    ensures u.isCompleted.Absent? && u.logId.Absent?
  {
    ScheduleUpdateData(Some(data.serviceName), Present(SentDate(data.dueDate)), Present(SentCondition(data.dueCondition)),
                       Absent, Absent)
  }

  /** A schedule created from the page is pending. */
  lemma CreatedSchedulesArePending(data: ScheduleFormData, id: int, now: int)
    ensures !NewSchedule(id, CreatePayload(data), now).isCompleted
  {
  }

  /**
   * The form never sends both a date and a condition, and an edit always sends both columns, so
   * a schedule edited from the page ends with a due date or a due condition, not both.
   */
  lemma EditedScheduleHasDateOrCondition(s: MaintenanceSchedule, data: ScheduleFormData, now: int)
    requires !(NonNull(data.dueDate) && NonNull(data.dueCondition))
    ensures var edited := PatchSchedule(s, EditPayload(data), now);
      !(edited.dueDate.Some? && edited.dueCondition.Some?)
  {
  }

  /** `schedules.find(s => s.id === id) || null`: the first row with that id. */
  function FindSchedule(rows: seq<ScheduleRow>, id: int): (found: Option<ScheduleRow>)
    ensures found.None? <==> forall row :: row in rows ==> row.schedule.id != id
    ensures found.Some? ==>
      exists i :: (0 <= i < |rows| && rows[i] == found.value && rows[i].schedule.id == id
                   && forall j :: 0 <= j < i ==> rows[j].schedule.id != id)
  {
    if rows == [] then None
    else if rows[0].schedule.id == id then Some(rows[0])
    else
      var rest := FindSchedule(rows[1..], id);
      if rest.Some? then
        var i :| (0 <= i < |rows[1..]| && rows[1..][i] == rest.value && rows[1..][i].schedule.id == id
                  && forall j :: 0 <= j < i ==> rows[1..][j].schedule.id != id);
        assert rows[i + 1] == rest.value;
        rest
      else
        assert forall row :: row in rows[1..] ==> row.schedule.id != id;
        rest
  }

  /** The log the completion flow records: today's date, the fixed description, the cost typed in. */
  function CompletionLog(s: MaintenanceSchedule, cost: int, now: int): (data: LogCreateData)
    ensures data.assetId == s.assetId && data.serviceName == s.serviceName
    ensures data.serviceDate == Dates.StartOfDay(now) && data.cost == Some(cost)
  {
    LogCreateData(s.assetId, s.serviceName, Dates.StartOfDay(now), Some("Manutenção agendada concluída"), Some(cost))
  }

  /** `MaintenanceSchedulesPage`. */
  class SchedulesPage {
    var schedules: seq<ScheduleRow>
    var searchTerm: string
    var page: nat
    var rowsPerPage: nat
    var openModal: bool
    var editing: Option<ScheduleRow>
    var completing: Option<ScheduleRow>
    var snackbar: Snackbar

    constructor ()
      ensures schedules == [] && searchTerm == "" && page == 0 && rowsPerPage == DefaultRowsPerPage
      ensures !openModal && editing.None? && completing.None? && snackbar == ClosedSnackbar
    {
      schedules := [];
      searchTerm := "";
      page := 0;
      rowsPerPage := DefaultRowsPerPage;
      openModal := false;
      editing := None;
      completing := None;
      snackbar := ClosedSnackbar;
    }

    /** `paginatedSchedules`: the current page of the schedules that match the search. */
    function Shown(): (rows: seq<ScheduleRow>)
      reads this
      ensures |rows| <= rowsPerPage
      ensures |rows| == if page * rowsPerPage >= |FilterSchedules(schedules, searchTerm)| then 0
                        else if page * rowsPerPage + rowsPerPage <= |FilterSchedules(schedules, searchTerm)| then rowsPerPage
                        else |FilterSchedules(schedules, searchTerm)| - page * rowsPerPage
      ensures forall i :: 0 <= i < |rows| ==>
        && page * rowsPerPage + i < |FilterSchedules(schedules, searchTerm)|
        && rows[i] == FilterSchedules(schedules, searchTerm)[page * rowsPerPage + i]
      ensures forall row :: row in rows ==> row in schedules && ScheduleMatches(row, searchTerm)
    {
      var filtered := FilterSchedules(schedules, searchTerm);
      Page(filtered, page, rowsPerPage)
    }

    /** The search box's `onChange`; the page number is kept. */
    method Search(term: string)
      modifies this`searchTerm
      ensures searchTerm == term
    {
      searchTerm := term;
    }

    /** `onRowsPerPageChange`: the new size, back on the first page. */
    method ChangeRowsPerPage(n: nat)
      modifies this`rowsPerPage, this`page
      ensures rowsPerPage == n && page == 0
    {
      rowsPerPage := n;
      page := 0;
    }

    /** `handleCompleteClick`: the first listed schedule with that id, or none. */
    method CompleteClick(id: int)
      modifies this`completing
      ensures completing == FindSchedule(schedules, id)
    {
      completing := FindSchedule(schedules, id);
    }

    /** The completion dialog's `onClose`. */
    method CloseCompletion()
      modifies this`completing
      ensures completing.None?
    {
      completing := None;
    }

    /** The row's edit button. */
    method Edit(row: ScheduleRow)
      modifies this`editing, this`openModal
      ensures editing == Some(row) && openModal
    {
      editing := Some(row);
      openModal := true;
    }

    /** `handleDelete`: the delete request for that id; the list reloads when it resolves. */
    method Delete(id: int, outcome: Outcome) returns (request: int, reload: bool)
      modifies this`snackbar
      ensures request == id
      ensures reload <==> outcome.Resolved?
      ensures snackbar == Feedback(outcome, "Agendamento deletado com sucesso!", "Erro ao deletar agendamento")
    {
      request := id;
      reload := outcome.Resolved?;
      snackbar := Feedback(outcome, "Agendamento deletado com sucesso!", "Erro ao deletar agendamento");
    }

    /**
     * `handleSubmitSchedule`: an update of the schedule being edited or a new schedule; on success
     * the list reloads and the dialog closes with no edit target.
     */
    method SubmitSchedule(data: ScheduleFormData, outcome: Outcome) returns (request: ScheduleRequest, reload: bool)
      modifies this`openModal, this`editing, this`snackbar
      ensures old(editing).Some? ==> request == UpdateScheduleRequest(old(editing).value.schedule.id, EditPayload(data))
      ensures old(editing).None? ==> request == CreateScheduleRequest(CreatePayload(data))
      ensures reload <==> outcome.Resolved?
      ensures outcome.Resolved? ==> !openModal && editing.None?
      ensures outcome.Rejected? ==> openModal == old(openModal) && editing == old(editing)
      ensures snackbar == Feedback(outcome,
        if old(editing).Some? then "Agendamento atualizado com sucesso!" else "Agendamento criado com sucesso!",
        "Erro ao salvar agendamento")
    {
      var success: string;
      if editing.Some? {
        request := UpdateScheduleRequest(editing.value.schedule.id, EditPayload(data));
        success := "Agendamento atualizado com sucesso!";
      } else {
        request := CreateScheduleRequest(CreatePayload(data));
        success := "Agendamento criado com sucesso!";
      }
      snackbar := Feedback(outcome, success, "Erro ao salvar agendamento");
      reload := outcome.Resolved?;
      if outcome.Resolved? {
        openModal := false;
        editing := None;
      }
    }

    /**
     * `handleConfirmComplete`, run against the services: first a log for the schedule's asset and
     * service with the given cost, then the schedule marked completed with that log's id. A
     * failed first step completes nothing; a failed second step leaves the new log in place.
     * Every error is caught and shown (`httpMessage` is the text the HTTP client reports for it).
     */
    method ConfirmComplete(db: Database, userId: int, cost: int, now: int, httpMessage: Error -> string)
      returns (reload: bool)
      requires db.Valid()
      modifies this`snackbar, db`logs, db`nextLogId, db`schedules
      ensures db.Valid()
      ensures completing.None? ==>
        && !reload && snackbar == old(snackbar)
        && db.logs == old(db.logs) && db.nextLogId == old(db.nextLogId) && db.schedules == old(db.schedules)
      ensures completing.Some? && !OwnsAsset(db.assets, completing.value.schedule.assetId, userId) ==>
        && !reload && snackbar == Snackbar(true, httpMessage(AssetNotFound), ErrorSeverity)
        && db.logs == old(db.logs) && db.nextLogId == old(db.nextLogId) && db.schedules == old(db.schedules)
      ensures completing.Some? && OwnsAsset(db.assets, completing.value.schedule.assetId, userId) ==>
        var s := completing.value.schedule;
        var log := MaintenanceLog(old(db.nextLogId), s.assetId, s.serviceName, Dates.StartOfDay(now),
                                  Some("Manutenção agendada concluída"), Some(cost), now, now);
        && db.logs == old(db.logs) + [log]
        && (reload <==> OwnsSchedule(db.assets, old(db.schedules), s.id, userId))
        && (reload ==>
              && CompletedWhere(old(db.schedules), db.schedules, s.id, Some(log.id), now)
              && (exists c :: c in db.schedules && c.id == s.id && c.isCompleted && c.logId == Some(log.id))
              && (forall row :: row in GetPendingSchedules(db.assets, db.schedules, userId) ==> row.schedule.id != s.id)
              && snackbar == Snackbar(true, "Manutenção marcada como concluída!", SuccessSeverity))
        && (!reload ==>
              db.schedules == old(db.schedules) && snackbar == Snackbar(true, httpMessage(ScheduleNotFound), ErrorSeverity))
    {
      if completing.None? {
        return false;
      }
      var s := completing.value.schedule;
      var created := LogService.CreateLog(db, userId, CompletionLog(s, cost, now), now);
      if created.Failure? {
        snackbar := Snackbar(true, httpMessage(created.error), ErrorSeverity);
        return false;
      }
      var log := created.value;
      var marked := CompleteSchedule(db, userId, s.id, Some(log.id), now);
      if marked.Failure? {
        snackbar := Snackbar(true, httpMessage(marked.error), ErrorSeverity);
        return false;
      }
      CompletedLeavesPending(db.assets, db.schedules, userId, s.id, db.nextScheduleId);
      snackbar := Snackbar(true, "Manutenção marcada como concluída!", SuccessSeverity);
      reload := true;
    }
  }
}
