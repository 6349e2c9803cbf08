/**
 * The search boxes of the three list pages. Each keeps, in their order, the rows whose text
 * includes the search term; the page then shows one slice of what is kept (`Sequences.Page`).
 */
module ListFilters {
  import opened Records
  import opened Text
  import opened Sequences
  import opened ClientRecords
  import opened ScheduleService

  /** `s.toLowerCase().includes(term.toLowerCase())`. */
  predicate Mentions(s: string, term: string) {
    Contains(ToLower(s), ToLower(term))
  }

  /** Every text mentions the empty term. */
  lemma MentionsEmpty(s: string)
    ensures Mentions(s, "")
  {
    assert ToLower("") == "";
    ContainsEmpty(ToLower(s));
  }

  /** Upper- and lower-case letters of the term are alike to `Mentions`. */
  lemma MentionsIgnoresCase(s: string, term: string)
    ensures Mentions(s, ToLower(term)) == Mentions(s, term)
  {
    ToLowerIdempotent(term);
  }

  /** `AssetsPage`: the name or the description includes the term, whatever the case. */
  predicate AssetMatches(a: AssetView, term: string) {
    Mentions(a.name, term) || Mentions(a.description, term)
  }

  /** `filteredAssets`. */
  function FilterAssets(assets: seq<AssetView>, term: string): (r: seq<AssetView>)
    ensures forall a :: a in r <==> a in assets && AssetMatches(a, term)
    ensures IsSubsequence(r, assets)
    ensures term == "" ==> r == assets
  {
    var keep := (a: AssetView) => AssetMatches(a, term);
    FilterIsSubsequence(assets, keep);
    assert term == "" ==> Filter(assets, keep) == assets by {
      if term == "" {
        forall a | a in assets ensures keep(a) {
          MentionsEmpty(a.name);
        }
        FilterKeepsAll(assets, keep);
      }
    }
    Filter(assets, keep)
  }

  /** The asset search does not depend on the case of the term. */
  lemma AssetSearchIgnoresCase(assets: seq<AssetView>, term: string)
    ensures FilterAssets(assets, ToLower(term)) == FilterAssets(assets, term)
  {
    forall a | a in assets ensures AssetMatches(a, ToLower(term)) == AssetMatches(a, term) {
      MentionsIgnoresCase(a.name, term);
      MentionsIgnoresCase(a.description, term);
    }
    FilterAgree(assets, (a: AssetView) => AssetMatches(a, ToLower(term)), (a: AssetView) => AssetMatches(a, term));
  }

  /** `MaintenancePage`: the service name, or a non-empty asset name, includes the term, whatever the case. */
  predicate LogMatches(l: LogView, term: string) {
    Mentions(l.serviceName, term) || (l.assetName != "" && Mentions(l.assetName, term))
  }

  /** `filteredMaintenances`. */
  function FilterLogs(logs: seq<LogView>, term: string): (r: seq<LogView>)
    ensures forall l :: l in r <==> l in logs && LogMatches(l, term)
    ensures IsSubsequence(r, logs)
    ensures term == "" ==> r == logs
  {
    var keep := (l: LogView) => LogMatches(l, term);
    FilterIsSubsequence(logs, keep);
    assert term == "" ==> Filter(logs, keep) == logs by {
      if term == "" {
        forall l | l in logs ensures keep(l) {
          MentionsEmpty(l.serviceName);
        }
        FilterKeepsAll(logs, keep);
      }
    }
    Filter(logs, keep)
  }

  /** The log search does not depend on the case of the term. */
  lemma LogSearchIgnoresCase(logs: seq<LogView>, term: string)
    ensures FilterLogs(logs, ToLower(term)) == FilterLogs(logs, term)
  {
    forall l | l in logs ensures LogMatches(l, ToLower(term)) == LogMatches(l, term) {
      MentionsIgnoresCase(l.serviceName, term);
      MentionsIgnoresCase(l.assetName, term);
    }
    FilterAgree(logs, (l: LogView) => LogMatches(l, ToLower(term)), (l: LogView) => LogMatches(l, term));
  }

  /**
   * `MaintenanceSchedulesPage`: the service name includes the term whatever the case, or the
   * asset id is non-zero and its decimal digits include the term as typed.
   */
  predicate ScheduleMatches(row: ScheduleRow, term: string) {
    Mentions(row.schedule.serviceName, term)
    || (row.schedule.assetId != 0 && Contains(IntToString(row.schedule.assetId), term))
  }

  /** `filteredSchedules`. */
  function FilterSchedules(rows: seq<ScheduleRow>, term: string): (r: seq<ScheduleRow>)
    ensures forall row :: row in r <==> row in rows && ScheduleMatches(row, term)
    ensures IsSubsequence(r, rows)
    ensures term == "" ==> r == rows
  {
    var keep := (row: ScheduleRow) => ScheduleMatches(row, term);
    FilterIsSubsequence(rows, keep);
    assert term == "" ==> Filter(rows, keep) == rows by {
      if term == "" {
        forall row | row in rows ensures keep(row) {
          MentionsEmpty(row.schedule.serviceName);
        }
        FilterKeepsAll(rows, keep);
      }
    }
    Filter(rows, keep)
  }

  /** Typing the digits of an asset's id finds that asset's schedules. */
  lemma SearchByAssetId(rows: seq<ScheduleRow>, row: ScheduleRow)
    requires row in rows && row.schedule.assetId > 0
    ensures row in FilterSchedules(rows, NatToString(row.schedule.assetId))
  {
    var digits := NatToString(row.schedule.assetId);
    assert IsPrefix(digits, IntToString(row.schedule.assetId));
  }
}
