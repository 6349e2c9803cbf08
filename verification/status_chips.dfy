/**
 * The status labels the client shows for a maintenance schedule: the chip of the asset page's
 * schedule list, the chip of the dashboard's upcoming list, and the fallback texts of the
 * schedule list's columns. "Today" is the instant the page renders; a date is overdue when it
 * falls before the midnight that starts today.
 */
module StatusChips {
  import opened Wrappers
  import opened Records
  import opened Dates

  datatype Chip = Done | Undated | Late | Due {
    /** The chip's text. */
    function Label(): string {
      match this
      case Done => "Concluído"
      case Undated => "Sem data"
      case Late => "Atrasado"
      case Due => "Pendente"
    }
  }

  /** Distinct chips read differently. */
  lemma LabelsDistinct(a: Chip, b: Chip)
    requires a != b
    ensures a.Label() != b.Label()
  {
    match a
    case Done => assert a.Label()[0] == 'C';
    case Undated => assert a.Label()[0] == 'S';
    case Late => assert a.Label()[0] == 'A';
    case Due => assert a.Label()[0] == 'P';
  }

  /**
   * `getStatusChip` of `MaintenanceScheduleList`: completed first, then undated, then overdue
   * when the due date is before today's midnight, and pending otherwise.
   */
  function ScheduleChip(s: MaintenanceSchedule, now: int): (c: Chip)
    ensures c == Done <==> s.isCompleted
    ensures c == Undated <==> !s.isCompleted && s.dueDate.None?
    ensures c == Late <==> !s.isCompleted && s.dueDate.Some? && s.dueDate.value < StartOfDay(now)
    ensures c == Due <==> !s.isCompleted && s.dueDate.Some? && StartOfDay(now) <= s.dueDate.value
    ensures c == Late ==> s.dueDate.value < now
    ensures c == Due ==> now - MsPerDay < s.dueDate.value
  {
    if s.isCompleted then Done
    else if s.dueDate.None? then Undated
    else if s.dueDate.value < StartOfDay(now) then Late
    else Due
  }

  /** A completed schedule is labelled done whatever its due date. */
  lemma CompletedIgnoresDate(s: MaintenanceSchedule, due: Option<int>, now: int)
    requires s.isCompleted
    ensures ScheduleChip(s.(dueDate := due), now) == ScheduleChip(s, now) == Done
  {
  }

  /**
   * `getStatusChip` of `UpcomingMaintenance`, which sees only the due date. For a pending
   * schedule it picks the same chip as the schedule list.
   */
  function DueDateChip(dueDate: Option<int>, now: int): (c: Chip)
    ensures c != Done
    ensures forall s: MaintenanceSchedule :: s.dueDate == dueDate && !s.isCompleted ==> c == ScheduleChip(s, now)
  {
    if dueDate.None? then Undated
    else if dueDate.value < StartOfDay(now) then Late
    else Due
  }

  /** The "Data Prevista" column: the formatted date, or "Não definida". */
  function DueDateText(s: MaintenanceSchedule, format: int -> string): (t: string)
    ensures s.dueDate.Some? ==> t == format(s.dueDate.value)
    ensures s.dueDate.None? ==> t == "Não definida"
  {
    match s.dueDate
    case Some(d) => format(d)
    case None => "Não definida"
  }

  /** The "Condição" column: a non-empty condition, or "Não especificado". */
  function ConditionText(s: MaintenanceSchedule): (t: string)
    ensures Given(s.dueCondition) ==> t == s.dueCondition.value
    ensures !Given(s.dueCondition) ==> t == "Não especificado"
    ensures t != ""
  {
    if Given(s.dueCondition) then s.dueCondition.value else "Não especificado"
  }

  /** The secondary lines of an upcoming item: its service, then a "Vencimento" line when it has a due date. */
  function UpcomingLines(serviceName: string, dueDate: Option<int>, format: int -> string): (lines: seq<string>)
    ensures |lines| == if dueDate.Some? then 2 else 1
    ensures lines[0] == serviceName
    ensures dueDate.Some? ==> lines[1] == "Vencimento: " + format(dueDate.value)
  {
    [serviceName] + if dueDate.Some? then ["Vencimento: " + format(dueDate.value)] else []
  }

  /** The plain status column of the schedule tables: "Concluído" or "Pendente". */
  function CompletionText(s: MaintenanceSchedule): (t: string)
    ensures t == (if s.isCompleted then Done else Due).Label()
  {
    if s.isCompleted then "Concluído" else "Pendente"
  }
}
