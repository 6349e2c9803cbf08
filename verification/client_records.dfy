/**
 * What the client pages hold: the rows the list endpoints return, as the client's interfaces
 * declare them, and the feedback a page shows after a request.
 */
module ClientRecords {
  import opened Wrappers

  /** An asset as `AssetsPage` lists it (`id, name, description, created_at`). */
  datatype AssetView = AssetView(id: int, name: string, description: string, createdAt: int)

  /** A maintenance log as `MaintenancePage` lists it: the log joined with its asset's name. */
  datatype LogView = LogView(
    id: int, assetId: int, assetName: string, serviceName: string, serviceDate: int,
    description: string, cost: int, createdAt: int)

  datatype Severity = SuccessSeverity | ErrorSeverity

  /** The `snackbar` state of a page. */
  datatype Snackbar = Snackbar(open: bool, message: string, severity: Severity)

  const ClosedSnackbar := Snackbar(false, "", SuccessSeverity)

  /**
   * How an awaited request settled: resolved, or rejected with an `Error` carrying a message
   * (`Some`) or with something else (`None`).
   */
  datatype Outcome = Resolved | Rejected(message: Option<string>)

  /** `err instanceof Error ? err.message : fallback`. */
  function ErrorText(message: Option<string>, fallback: string): (r: string)
    ensures message.Some? ==> r == message.value
    ensures message.None? ==> r == fallback
  {
    message.GetOr(fallback)
  }

  /** The snackbar a page opens after an outcome: the success text, or the error's text. */
  function Feedback(outcome: Outcome, success: string, fallback: string): (s: Snackbar)
    ensures s.open
    ensures s.severity == SuccessSeverity <==> outcome.Resolved?
    ensures outcome.Resolved? ==> s.message == success
    ensures outcome.Rejected? ==> s.message == ErrorText(outcome.message, fallback)
  {
    match outcome
    case Resolved => Snackbar(true, success, SuccessSeverity)
    case Rejected(m) => Snackbar(true, ErrorText(m, fallback), ErrorSeverity)
  }
}
