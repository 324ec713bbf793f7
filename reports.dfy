/**
 * The two reports of `RenderDataAnalyzer`: farm utilization
 * (`generate_report`) and failed jobs with their cleanup estimate
 * (`generate_failure_report`). Both only read the table.
 */
module Reports {
  import opened Wrappers
  import opened Table

  /** Column sum of Frames Requested. */
  function SumRequested(rows: seq<Job>): int
  {
    if rows == [] then 0 else rows[0].framesRequested + SumRequested(rows[1..])
  }

  /** Column sum of Frames Completed. */
  function SumCompleted(rows: seq<Job>): int
  {
    if rows == [] then 0 else rows[0].framesCompleted + SumCompleted(rows[1..])
  }

  /** The totals are additive over stacked tables: each row is counted exactly once. */
  lemma {:induction false} SumsAppend(a: seq<Job>, b: seq<Job>)
    ensures SumRequested(a + b) == SumRequested(a) + SumRequested(b)
    ensures SumCompleted(a + b) == SumCompleted(a) + SumCompleted(b)
  {
    if a == [] {
      assert a + b == b;
    } else {
      assert (a + b)[1..] == a[1..] + b;
      SumsAppend(a[1..], b);
    }
  }

  /** The figures of the utilization report; `rate` is present only when it was computed. */
  datatype Utilization = Utilization(sumRequested: int, sumCompleted: int, rate: Option<real>)

  /** The utilization report: both totals, and the percentage only when frames were requested. */
  function UtilizationReport(rows: seq<Job>): (u: Utilization)
    ensures u.sumRequested == SumRequested(rows) && u.sumCompleted == SumCompleted(rows)
    ensures u.rate.Some? <==> u.sumRequested > 0
    ensures u.rate.Some? ==> u.rate.value * u.sumRequested as real == 100.0 * u.sumCompleted as real
  {
    var requested := SumRequested(rows);
    var completed := SumCompleted(rows);
    Utilization(requested, completed,
      if requested > 0 then Some((completed as real / requested as real) * 100.0) else None)
  }

  /** Rows whose counts are consistent (0 <= completed <= requested) have totals that are too. */
  lemma {:induction false} SumsBounded(rows: seq<Job>)
    requires forall i :: 0 <= i < |rows| ==> 0 <= rows[i].framesCompleted <= rows[i].framesRequested
    ensures 0 <= SumCompleted(rows) <= SumRequested(rows)
  {
    if rows != [] {
      SumsBounded(rows[1..]);
    }
  }

  /** On consistent rows a computed utilization is a percentage between 0 and 100. */
  lemma UtilizationIsPercentage(rows: seq<Job>)
    requires forall i :: 0 <= i < |rows| ==> 0 <= rows[i].framesCompleted <= rows[i].framesRequested
    ensures UtilizationReport(rows).rate.Some? ==> 0.0 <= UtilizationReport(rows).rate.value <= 100.0
  {
    SumsBounded(rows);
    var u := UtilizationReport(rows);
    if u.rate.Some? {
      var q := u.sumCompleted as real / u.sumRequested as real;
      assert 0.0 <= q <= 1.0;
    }
  }

  /** The worked example: requested [10, 20, 0], completed [10, 10, 0]. */
  lemma UtilizationExample()
    ensures UtilizationReport([
      Job("1", "A", "DONE", 1, 10, 10),
      Job("2", "A", "DONE", 1, 20, 10),
      Job("3", "B", "DONE", 1, 0, 0)]) == Utilization(30, 20, Some(200.0 / 3.0))
  {
  }

  /** With no frames requested nothing is divided and no rate is produced. */
  lemma {:induction false} UtilizationWithoutRequests(rows: seq<Job>)
    requires forall i :: 0 <= i < |rows| ==> rows[i].framesRequested == 0
    ensures UtilizationReport(rows) == Utilization(0, SumCompleted(rows), None)
  {
    if rows != [] {
      UtilizationWithoutRequests(rows[1..]);
    }
  }

  predicate IsFailed(j: Job)
  {
    j.status == Failed
  }

  /** A failed row of the report: a copy of the whole row plus the two derived columns. */
  datatype FailedJob = FailedJob(job: Job, framesRemaining: int, cleanupTime: real)

  /** The failed rows, copied out of the table in their original order. */
  function FailedRows(rows: seq<Job>): seq<Job>
  {
    Filter(IsFailed, rows)
  }

  /** Frames Remaining is requested minus completed, not clamped; Cleanup Time scales it by the heuristic. */
  function Annotate(j: Job, heuristic: real): FailedJob
  {
    var remaining := j.framesRequested - j.framesCompleted;
    FailedJob(j, remaining, remaining as real * heuristic)
  }

  function AnnotateAll(rows: seq<Job>, heuristic: real): seq<FailedJob>
  {
    seq(|rows|, k requires 0 <= k < |rows| => Annotate(rows[k], heuristic))
  }

  /** The outcome of the failure pass: it stops early when no row failed. */
  datatype FailureReport = NoFailedJobs | FailedJobs(jobs: seq<FailedJob>)

  function FailureReportOf(rows: seq<Job>, heuristic: real): (r: FailureReport)
    ensures r.NoFailedJobs? <==> forall i :: 0 <= i < |rows| ==> rows[i].status != Failed
    ensures r.FailedJobs? ==> r.jobs != [] && |r.jobs| == |FailedRows(rows)|
    ensures r.FailedJobs? ==> forall k :: 0 <= k < |r.jobs| ==>
      r.jobs[k].job == FailedRows(rows)[k] &&
      r.jobs[k].framesRemaining == r.jobs[k].job.framesRequested - r.jobs[k].job.framesCompleted &&
      r.jobs[k].cleanupTime == r.jobs[k].framesRemaining as real * heuristic
  {
    FilterEmpty(IsFailed, rows);
    var failed := FailedRows(rows);
    if failed == [] then NoFailedJobs else FailedJobs(AnnotateAll(failed, heuristic))
  }

  /** Every reported job is a FAILED row of the table, and every FAILED row is reported. */
  lemma FailureReportIsExactlyTheFailedRows(rows: seq<Job>, heuristic: real)
    requires FailureReportOf(rows, heuristic).FailedJobs?
    ensures forall f :: f in FailureReportOf(rows, heuristic).jobs ==> f.job in rows && f.job.status == Failed
    ensures forall i :: 0 <= i < |rows| && rows[i].status == Failed ==>
      exists f :: f in FailureReportOf(rows, heuristic).jobs && f.job == rows[i]
  {
    var jobs := FailureReportOf(rows, heuristic).jobs;
    var failed := FailedRows(rows);
    forall f | f in jobs ensures f.job in rows && f.job.status == Failed {
      var k :| 0 <= k < |jobs| && jobs[k] == f;
      assert failed[k] in failed;
    }
    forall i | 0 <= i < |rows| && rows[i].status == Failed
      ensures exists f :: f in jobs && f.job == rows[i]
    {
      assert rows[i] in failed;
      var k :| 0 <= k < |failed| && failed[k] == rows[i];
      assert jobs[k] in jobs;
    }
  }

  /** The failure report of stacked tables stacks the two reports' rows: original order is kept. */
  lemma FailedJobsAppend(a: seq<Job>, b: seq<Job>, heuristic: real)
    ensures AnnotateAll(FailedRows(a + b), heuristic) ==
      AnnotateAll(FailedRows(a), heuristic) + AnnotateAll(FailedRows(b), heuristic)
  {
    FilterAppend(IsFailed, a, b);
  }

  /** The worked example: 100 requested, 40 completed, heuristic 2. */
  lemma FailureReportExample()
    ensures FailureReportOf([Job("7", "A", "FAILED", 3, 100, 40)], 2.0) ==
      FailedJobs([FailedJob(Job("7", "A", "FAILED", 3, 100, 40), 60, 120.0)])
  {
  }
}
