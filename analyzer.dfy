/**
 * `RenderDataAnalyzer`: it owns the job table and runs the three rule passes.
 * The boost rewrites rows of the shared table in place; the two reports only
 * read it and cache their figures in fields of the analyzer.
 */
module Analyzer {
  import opened Wrappers
  import opened Table
  import opened Boost
  import opened Reports

  /** What the boost pass reports: nothing pending, or the boost value, the count and the Job IDs changed. */
  datatype BoostReport = NoPendingJobs | Prioritized(boost: int, count: nat, ids: seq<string>)

  class RenderDataAnalyzer {
    const table: array<Job>
    const show: string
    const boost: int
    const heuristic: real

    /** The boost's row selection mask. */
    var selection: seq<bool>
    /** Figures cached by the utilization report; `utilRate` stays None until a report computes one. */
    var sumRequested: int
    var sumCompleted: int
    var utilRate: Option<real>
    /** The copied failed rows of the last failure report. */
    var failedJobs: seq<FailedJob>

    constructor (table: array<Job>, show: string, boost: int, heuristic: real)
      ensures this.table == table && this.show == show
      ensures this.boost == boost && this.heuristic == heuristic
      ensures selection == [] && sumRequested == 0 && sumCompleted == 0
      ensures utilRate == None && failedJobs == []
    {
      this.table := table;
      this.show := show;
      this.boost := boost;
      this.heuristic := heuristic;
      selection := [];
      sumRequested, sumCompleted := 0, 0;
      utilRate := None;
      failedJobs := [];
    }

    /** The boost's row selection: true at the target show's pending rows. */
    method SelectionMask() returns (mask: seq<bool>)
      ensures |mask| == table.Length
      ensures forall i :: 0 <= i < table.Length ==> mask[i] == Selected(table[i], show)
    {
      mask := [];
      var i := 0;
      while i < table.Length
        invariant 0 <= i <= table.Length
        invariant |mask| == i
        invariant forall k :: 0 <= k < i ==> mask[k] == Selected(table[k], show)
      {
        mask := mask + [Selected(table[i], show)];
        i := i + 1;
      }
    }

    /** Gives the masked rows the boost priority and the status "Overnight", collecting their Job IDs. */
    method PromoteSelected(mask: seq<bool>) returns (ids: seq<string>)
      requires |mask| == table.Length
      requires forall i :: 0 <= i < table.Length ==> mask[i] == Selected(table[i], show)
      modifies table
      ensures table[..] == Boosted(old(table[..]), show, boost)
      ensures ListsIds(ids, SelectedRows(old(table[..]), show))
    {
      ghost var rows := table[..];
      ids := [];
      var i := 0;
      while i < table.Length
        invariant 0 <= i <= table.Length
        invariant ListsIds(ids, SelectedRows(rows[..i], show))
        invariant forall k :: 0 <= k < i ==> table[k] == BoostRow(rows[k], show, boost)
        invariant forall k :: i <= k < table.Length ==> table[k] == rows[k]
      {
        SelectedRowsSnoc(rows, i, show);
        if mask[i] {
          ids := ids + [table[i].id];
          table[i] := Promote(table[i], boost);
        }
        i := i + 1;
      }
      assert rows[..table.Length] == rows;
      forall k | 0 <= k < table.Length ensures table[k] == Boosted(rows, show, boost)[k] {
        BoostedAt(rows, show, boost, k);
      }
    }

    /**
     * Selects the target show's pending rows, and if there are any, gives them
     * the boost priority and the status "Overnight" in place, reporting how many
     * rows changed and their Job IDs in table order.
     */
    method PrioritizeNightRenders() returns (report: BoostReport)
      modifies this`selection, table
      ensures table[..] == Boosted(old(table[..]), show, boost)
      ensures |selection| == table.Length
      ensures forall i :: 0 <= i < table.Length ==> selection[i] == Selected(old(table[i]), show)
      ensures report.NoPendingJobs? <==> SelectedRows(old(table[..]), show) == []
      ensures report.Prioritized? ==>
        report.boost == boost &&
        report.count == |SelectedRows(old(table[..]), show)| &&
        ListsIds(report.ids, SelectedRows(old(table[..]), show))
    {
      ghost var rows := table[..];
      var mask := SelectionMask();
      selection := mask;
      SelectedRowsEmpty(rows, show);
      if true in mask {
        var ids := PromoteSelected(mask);
        report := Prioritized(boost, |ids|, ids);
      } else {
        report := NoPendingJobs;
        BoostWithoutSelectionIsIdentity(rows, show, boost);
      }
    }

    /** Totals both frame columns and, when frames were requested, the utilization percentage. */
    method GenerateReport()
      modifies this`sumRequested, this`sumCompleted, this`utilRate
      ensures sumRequested == SumRequested(table[..]) && sumCompleted == SumCompleted(table[..])
      ensures sumRequested > 0 ==> utilRate == UtilizationReport(table[..]).rate
      ensures sumRequested <= 0 ==> utilRate == old(utilRate)
    {
      var u := UtilizationReport(table[..]);
      sumRequested, sumCompleted := u.sumRequested, u.sumCompleted;
      if u.sumRequested > 0 {
        utilRate := u.rate;
      }
    }

    /** Copies out the FAILED rows and, unless there are none, adds their remaining frames and cleanup time. */
    method GenerateFailureReport() returns (report: FailureReport)
      modifies this`failedJobs
      ensures report == FailureReportOf(table[..], heuristic)
      ensures failedJobs == if report.FailedJobs? then report.jobs else []
    {
      report := FailureReportOf(table[..], heuristic);
      failedJobs := if report.FailedJobs? then report.jobs else [];
    }
  }

  /** The boost touches no frame column, so the utilization figures are the same before and after it. */
  lemma {:induction false} BoostKeepsUtilization(rows: seq<Job>, show: string, boost: int)
    ensures UtilizationReport(Boosted(rows, show, boost)) == UtilizationReport(rows)
  {
    BoostKeepsSums(rows, show, boost);
  }

  lemma {:induction false} BoostKeepsSums(rows: seq<Job>, show: string, boost: int)
    ensures SumRequested(Boosted(rows, show, boost)) == SumRequested(rows)
    ensures SumCompleted(Boosted(rows, show, boost)) == SumCompleted(rows)
  {
    if rows != [] {
      var b := Boosted(rows, show, boost);
      assert b[0] == BoostRow(rows[0], show, boost);
      assert b[1..] == Boosted(rows[1..], show, boost);
      BoostKeepsSums(rows[1..], show, boost);
    }
  }

  /** The boost only relabels PENDING rows, never to or from FAILED, so the failure report is the same after it. */
  lemma {:induction false} BoostKeepsFailureReport(rows: seq<Job>, show: string, boost: int, heuristic: real)
    ensures FailureReportOf(Boosted(rows, show, boost), heuristic) == FailureReportOf(rows, heuristic)
  {
    BoostKeepsFailedRows(rows, show, boost);
  }

  lemma {:induction false} BoostKeepsFailedRows(rows: seq<Job>, show: string, boost: int)
    ensures FailedRows(Boosted(rows, show, boost)) == FailedRows(rows)
  {
    if rows != [] {
      var b := Boosted(rows, show, boost);
      assert b[0] == BoostRow(rows[0], show, boost);
      assert b[1..] == Boosted(rows[1..], show, boost);
      assert IsFailed(b[0]) == IsFailed(rows[0]);
      BoostKeepsFailedRows(rows[1..], show, boost);
    }
  }

  /**
   * The driver's sequence of passes over one table: boost, utilization report,
   * failure report. The reports run on the boosted table and see the same
   * figures the original table would give.
   */
  method Run(table: array<Job>, show: string, boost: int, heuristic: real)
    returns (boostReport: BoostReport, utilization: Utilization, failures: FailureReport)
    modifies table
    ensures table[..] == Boosted(old(table[..]), show, boost)
    ensures boostReport.NoPendingJobs? <==> SelectedRows(old(table[..]), show) == []
    ensures boostReport.Prioritized? ==>
      boostReport.boost == boost &&
      boostReport.count == |SelectedRows(old(table[..]), show)| &&
      ListsIds(boostReport.ids, SelectedRows(old(table[..]), show))
    ensures utilization == UtilizationReport(old(table[..]))
    ensures failures == FailureReportOf(old(table[..]), heuristic)
  {
    ghost var rows := table[..];
    var analyzer := new RenderDataAnalyzer(table, show, boost, heuristic);
    boostReport := analyzer.PrioritizeNightRenders();
    analyzer.GenerateReport();
    utilization := Utilization(analyzer.sumRequested, analyzer.sumCompleted,
      if analyzer.sumRequested > 0 then analyzer.utilRate else None);
    failures := analyzer.GenerateFailureReport();
    BoostKeepsUtilization(rows, show, boost);
    BoostKeepsFailureReport(rows, show, boost, heuristic);
  }
}
