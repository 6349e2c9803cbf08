/**
 * The ORDER BY clauses of the services' queries, as comparators on rows: `le(a, b)` holds when
 * `a` may come before `b`. PostgreSQL sorts NULL after every value when ascending and before
 * every value when descending; `NULLS LAST` overrides that where a query says so.
 */
module SqlOrder {
  import opened Wrappers
  import opened Records
  import opened Sequences

  /** Ascending on a nullable key, NULLs last. */
  predicate NullsLastLe(x: Option<int>, y: Option<int>) {
    y.None? || (x.Some? && x.value <= y.value)
  }

  /** `ORDER BY service_date DESC` */
  predicate ServiceDateDesc(a: MaintenanceLog, b: MaintenanceLog) {
    a.serviceDate >= b.serviceDate
  }

  /** `ORDER BY created_at DESC` on logs. */
  predicate NewestLogFirst(a: MaintenanceLog, b: MaintenanceLog) {
    a.createdAt >= b.createdAt
  }

  /** `ORDER BY due_date NULLS LAST` */
  predicate DueDateNullsLast(a: MaintenanceSchedule, b: MaintenanceSchedule) {
    NullsLastLe(a.dueDate, b.dueDate)
  }

  /** `ORDER BY due_date NULLS LAST, created_at DESC` */
  predicate DueDateThenNewest(a: MaintenanceSchedule, b: MaintenanceSchedule) {
    NullsLastLe(a.dueDate, b.dueDate) && (NullsLastLe(b.dueDate, a.dueDate) ==> a.createdAt >= b.createdAt)
  }

  /** `ORDER BY is_completed, due_date NULLS LAST` (false sorts before true). */
  predicate PendingThenDueDate(a: MaintenanceSchedule, b: MaintenanceSchedule) {
    (!a.isCompleted && b.isCompleted) || (a.isCompleted == b.isCompleted && NullsLastLe(a.dueDate, b.dueDate))
  }

  /** `ORDER BY is_completed, due_date NULLS LAST, created_at DESC` */
  predicate PendingThenDueDateThenNewest(a: MaintenanceSchedule, b: MaintenanceSchedule) {
    (!a.isCompleted && b.isCompleted) || (a.isCompleted == b.isCompleted && DueDateThenNewest(a, b))
  }

  lemma ComparatorsTotal()
    ensures Total(ServiceDateDesc) && Total(NewestLogFirst)
    ensures Total(DueDateNullsLast) && Total(DueDateThenNewest)
    ensures Total(PendingThenDueDate) && Total(PendingThenDueDateThenNewest)
  {
  }

  /**
   * When every row that has property `P` sorts only before rows that have it too, a sorted
   * sequence keeps all its `P` rows at the end.
   */
  lemma {:induction false} SortedTail<T(!new)>(s: seq<T>, le: (T, T) -> bool, P: T -> bool, i: int, j: int)
    requires SortedBy(s, le)
    requires forall a, b :: P(a) && le(a, b) ==> P(b)
    requires 0 <= i <= j < |s| && P(s[i])
    ensures P(s[j])
    decreases j - i
  {
    if i < j {
      assert le(s[i], s[i + 1]);
      SortedTail(s, le, P, i + 1, j);
    }
  }

  predicate Completed(s: MaintenanceSchedule) { s.isCompleted }
  predicate Pending(s: MaintenanceSchedule) { !s.isCompleted }
  predicate Undated(s: MaintenanceSchedule) { s.dueDate.None? }

  /** In `ORDER BY is_completed, ...` output, no pending schedule follows a completed one. */
  lemma PendingBeforeCompleted(s: seq<MaintenanceSchedule>, i: int, j: int)
    requires SortedBy(s, PendingThenDueDate) || SortedBy(s, PendingThenDueDateThenNewest)
    requires 0 <= i <= j < |s| && s[i].isCompleted
    ensures s[j].isCompleted
  {
    assert SortedBy(s, PendingThenDueDate);
    SortedTail(s, PendingThenDueDate, Completed, i, j);
  }

  /** In `ORDER BY due_date NULLS LAST` output, dated schedules come first, in ascending date order. */
  lemma DatedFirstAscending(s: seq<MaintenanceSchedule>, i: int, j: int)
    requires SortedBy(s, DueDateNullsLast) || SortedBy(s, DueDateThenNewest)
    requires 0 <= i < j < |s|
    ensures s[i].dueDate.None? ==> s[j].dueDate.None?
    ensures s[i].dueDate.Some? && s[j].dueDate.Some? ==> s[i].dueDate.value <= s[j].dueDate.value
  {
    assert SortedBy(s, DueDateNullsLast);
    if s[i].dueDate.None? {
      SortedTail(s, DueDateNullsLast, Undated, i, j);
    }
    SortedPairwise(s, DueDateNullsLast, i, j);
  }
}
