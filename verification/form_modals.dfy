/**
 * The client's form dialogs: the schedule form, the maintenance-log form, and the dialog that asks
 * for the cost of a completed maintenance. Each dialog is an object whose fields are its React
 * state; its handlers update them.
 */
module FormModals {
  import opened Wrappers
  import opened Records
  import opened Sequences
  import opened Text
  import opened ClientRecords

  /** `value.replace(/[^0-9.]/g, '')`: every character but the digits and dots is dropped. */
  function SanitizeCost(s: string): (r: string)
    ensures CostText(r)
    ensures forall c :: c in r <==> c in s && IsCostChar(c)
    ensures IsSubsequence(r, s)
    ensures CostText(s) ==> r == s
    ensures forall c :: multiset(r)[c] == if IsCostChar(c) then multiset(s)[c] else 0
  {
    FilterIsSubsequence(s, IsCostChar);
    FilterCount(s, IsCostChar);
    assert CostText(s) ==> Filter(s, IsCostChar) == s by {
      if CostText(s) {
        FilterKeepsAll(s, IsCostChar);
      }
    }
    var r := Filter(s, IsCostChar);
    assert forall i :: 0 <= i < |r| ==> r[i] in r;
    r
  }

  /** Sanitising a sanitised cost changes nothing. */
  lemma SanitizeCostIdempotent(s: string)
    ensures SanitizeCost(SanitizeCost(s)) == SanitizeCost(s)
  {
  }

  /** A property of a submitted object that is `undefined` (`Absent`), `null` or a value. */
  predicate NonNull<T>(p: Patch<Option<T>>) {
    p.Present? && p.value.Some?
  }

  /** What the schedule form hands to `onSubmit`. */
  datatype ScheduleFormData = ScheduleFormData(
    assetId: int, serviceName: string, dueDate: Patch<Option<int>>, dueCondition: Patch<Option<string>>)

  /** `MaintenanceScheduleFormModal`: a due date, or (`useDate` off) a free-text due condition. */
  class ScheduleForm {
    var assetId: int
    var serviceName: string
    var dueDate: Option<int>
    var dueCondition: Option<string>
    var useDate: bool

    constructor ()
      ensures assetId == 0 && serviceName == "" && dueDate.None? && dueCondition.None? && useDate
    {
      assetId := 0;
      serviceName := "";
      dueDate := None;
      dueCondition := None;
      useDate := true;
    }

    /**
     * The effect that runs when `open` or `initialData` changes: on opening, the fields copy the
     * schedule being edited (date mode iff it has a due date), or are reset for a new one.
     */
    method OnOpen(open: bool, initial: Option<MaintenanceSchedule>)
      modifies this
      ensures !open ==> unchanged(this)
      ensures open && initial.Some? ==>
        && assetId == initial.value.assetId && serviceName == initial.value.serviceName
        && dueDate == initial.value.dueDate && dueCondition == StringOrNull(initial.value.dueCondition)
        && (useDate <==> initial.value.dueDate.Some?)
      ensures open && initial.None? ==>
        assetId == 0 && serviceName == "" && dueDate.None? && dueCondition.None? && useDate
    {
      if open {
        match initial {
          case Some(s) =>
            assetId := s.assetId;
            serviceName := s.serviceName;
            dueDate := s.dueDate;
            dueCondition := StringOrNull(s.dueCondition);
            useDate := s.dueDate.Some?;
          case None =>
            assetId := 0;
            serviceName := "";
            dueDate := None;
            dueCondition := None;
            useDate := true;
        }
      }
    }

    /** The save button's `disabled`: no asset, no name, or condition mode without a condition. */
    function SaveDisabled(): (disabled: bool)
      reads this
      ensures useDate ==> (disabled <==> assetId == 0 || serviceName == "")
      ensures !useDate ==> (disabled <==> assetId == 0 || serviceName == "" || !Given(dueCondition))
    {
      assetId == 0 || serviceName == "" || (!useDate && !Given(dueCondition))
    }

    /**
     * `handleSubmit`: nothing when no asset is chosen; otherwise the fields, with the date sent in
     * date mode and the condition otherwise, the other one as `null` and an empty one as `undefined`.
     */
    method Submit() returns (sent: Option<ScheduleFormData>)
      ensures sent.None? <==> assetId == 0
      ensures sent.Some? ==> sent.value.assetId == assetId && sent.value.serviceName == serviceName
      ensures sent.Some? ==> !(NonNull(sent.value.dueDate) && NonNull(sent.value.dueCondition))
      ensures sent.Some? && useDate ==>
        sent.value.dueCondition == Present(None)
        && sent.value.dueDate == (if dueDate.Some? then Present(dueDate) else Absent)
      ensures sent.Some? && !useDate ==>
        sent.value.dueDate == Present(None)
        && sent.value.dueCondition == (if Given(dueCondition) then Present(dueCondition) else Absent)
      ensures !SaveDisabled() ==> sent.Some? && (!useDate ==> NonNull(sent.value.dueCondition))
    {
      if assetId == 0 {
        return None;
      }
      var date: Patch<Option<int>> := if !useDate then Present(None) else if dueDate.Some? then Present(dueDate) else Absent;
      var condition: Patch<Option<string>> :=
        if useDate then Present(None) else if Given(dueCondition) then Present(dueCondition) else Absent;
      sent := Some(ScheduleFormData(assetId, serviceName, date, condition));
    }
  }

  /** What the maintenance form hands to `onSubmit`; `cost` is still the text of the cost field. */
  datatype LogFormData = LogFormData(
    assetId: int, serviceName: string, serviceDate: Option<int>, description: string, cost: string)

  /** `MaintenanceFormModal`. An empty date field is `None`. */
  class MaintenanceForm {
    var assetId: int
    var serviceName: string
    var serviceDate: Option<int>
    var description: string
    var cost: string

    constructor (today: int)
      ensures assetId == 0 && serviceName == "" && serviceDate == Some(today) && description == "" && cost == "0"
    {
      assetId := 0;
      serviceName := "";
      serviceDate := Some(today);
      description := "";
      cost := "0";
    }

    /** On opening, the fields copy the log being edited, or are reset to today's date and cost "0". */
    method OnOpen(open: bool, initial: Option<LogView>, today: int)
      modifies this
      ensures !open ==> unchanged(this)
      ensures open && initial.Some? ==>
        && assetId == initial.value.assetId && serviceName == initial.value.serviceName
        && serviceDate == Some(initial.value.serviceDate) && description == initial.value.description
        && cost == CentsToString(initial.value.cost)
      ensures open && initial.None? ==>
        assetId == 0 && serviceName == "" && serviceDate == Some(today) && description == "" && cost == "0"
      ensures open && (initial.Some? ==> initial.value.cost >= 0) ==> CostText(cost)
    {
      if open {
        match initial {
          case Some(l) =>
            assetId := l.assetId;
            serviceName := l.serviceName;
            serviceDate := Some(l.serviceDate);
            description := l.description;
            cost := CentsToString(l.cost);
          case None =>
            assetId := 0;
            serviceName := "";
            serviceDate := Some(today);
            description := "";
            cost := "0";
        }
      }
    }

    /** The cost field's `onChange`. */
    method TypeCost(input: string)
      modifies this`cost
      ensures cost == SanitizeCost(input) && CostText(cost)
    {
      cost := SanitizeCost(input);
    }

    /** The save button's `disabled`: no asset, no service name, or no service date. */
    function SaveDisabled(): (disabled: bool)
      reads this
      ensures disabled <==> assetId == 0 || serviceName == "" || serviceDate.None?
    {
      assetId == 0 || serviceName == "" || serviceDate.None?
    }

    /** `handleSubmit`: nothing when no asset is chosen, otherwise the fields as they stand. */
    method Submit() returns (sent: Option<LogFormData>)
      ensures sent.None? <==> assetId == 0
      ensures sent.Some? ==> sent.value == LogFormData(assetId, serviceName, serviceDate, description, cost)
      ensures !SaveDisabled() ==> sent.Some? && sent.value.serviceName != "" && sent.value.serviceDate.Some?
    {
      if assetId == 0 {
        return None;
      }
      sent := Some(LogFormData(assetId, serviceName, serviceDate, description, cost));
    }
  }

  /** What the completion dialog does, in order. */
  datatype ModalEvent = LoadingSet(on: bool) | ConfirmCalled(amount: int) | CloseCalled

  /** The value of `loading` after `events`, starting from `initial`. */
  function LoadingAfter(events: seq<ModalEvent>, initial: bool): bool {
    if events == [] then initial
    else if events[|events| - 1].LoadingSet? then events[|events| - 1].on
    else LoadingAfter(events[..|events| - 1], initial)
  }

  /** `CompleteMaintenanceModal`: the cost field and the `loading` flag of its confirm button. */
  class CompleteModal {
    var cost: string
    var loading: bool

    constructor ()
      ensures cost == "0" && !loading
    {
      cost := "0";
      loading := false;
    }

    /** The cost field's `onChange`. */
    method TypeCost(input: string)
      modifies this`cost
      ensures cost == SanitizeCost(input) && CostText(cost)
    {
      cost := SanitizeCost(input);
    }

    /** The confirm button is disabled while a confirmation runs. */
    predicate ConfirmDisabled()
      reads this
    {
      loading
    }

    /**
     * `handleConfirm`: `loading` is on while `onConfirm(amount)` runs, the dialog closes only when
     * `onConfirm` resolves, and `loading` is off again on both paths (`finally`).
     */
    method HandleConfirm(amount: int, confirmRejects: bool) returns (events: seq<ModalEvent>)
      modifies this`loading
      ensures !loading
      ensures |events| >= 3 && events[0] == LoadingSet(true) && events[1] == ConfirmCalled(amount)
      ensures events[|events| - 1] == LoadingSet(false)
      ensures CloseCalled in events <==> !confirmRejects
      ensures forall i :: 0 <= i < |events| && events[i] == CloseCalled ==> 1 < i
      ensures forall i :: 0 <= i < |events| && events[i].ConfirmCalled? ==> LoadingAfter(events[..i], old(loading))
    {
      loading := true;
      events := [LoadingSet(true)];
      assert LoadingAfter(events, old(loading));
      events := events + [ConfirmCalled(amount)];
      if !confirmRejects {
        events := events + [CloseCalled];
      }
      loading := false;
      events := events + [LoadingSet(false)];
      assert events[..1] == [LoadingSet(true)];
    }
  }
}
