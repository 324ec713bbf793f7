/**
 * The priority-boost rule of `RenderDataAnalyzer.prioritize_night_renders`,
 * stated on the table's contents: the target show's pending rows get the
 * boost priority and the status "Overnight"; every other row is kept.
 */
module Boost {
  import opened Table

  /** The row selection of the boost: the target show's rows still pending. */
  predicate Selected(j: Job, show: string)
  {
    j.show == show && j.status == Pending
  }

  /** The rows the boost selects, in table order. */
  function SelectedRows(rows: seq<Job>, show: string): seq<Job>
  {
    Filter((j: Job) => Selected(j, show), rows)
  }

  /** The selection is empty exactly when no row is the target show's and pending. */
  lemma SelectedRowsEmpty(rows: seq<Job>, show: string)
    ensures SelectedRows(rows, show) == [] <==> forall i :: 0 <= i < |rows| ==> !Selected(rows[i], show)
  {
    FilterEmpty((j: Job) => Selected(j, show), rows);
  }

  /** Extending the table by one row extends the selection by that row when it is selected. */
  lemma SelectedRowsSnoc(rows: seq<Job>, i: nat, show: string)
    requires i < |rows|
    ensures SelectedRows(rows[..i + 1], show) ==
      SelectedRows(rows[..i], show) + (if Selected(rows[i], show) then [rows[i]] else [])
  {
    assert rows[..i + 1] == rows[..i] + [rows[i]];
    FilterAppend((j: Job) => Selected(j, show), rows[..i], [rows[i]]);
    assert [rows[i]][1..] == [];
  }

  /** A selected row after the two column assignments (Priority, then Status). */
  function Promote(j: Job, boost: int): Job
  {
    j.(priority := boost, status := Overnight)
  }

  function BoostRow(j: Job, show: string, boost: int): Job
  {
    if Selected(j, show) then Promote(j, boost) else j
  }

  /** The table after the boost. */
  function Boosted(rows: seq<Job>, show: string, boost: int): (r: seq<Job>)
    ensures |r| == |rows|
  {
    if rows == [] then []
    else [BoostRow(rows[0], show, boost)] + Boosted(rows[1..], show, boost)
  }

  /** Row `i` of the boosted table is row `i` of the input with the rule applied. */
  lemma {:induction false} BoostedAt(rows: seq<Job>, show: string, boost: int, i: nat)
    requires i < |rows|
    ensures Boosted(rows, show, boost)[i] == BoostRow(rows[i], show, boost)
  {
    if i > 0 {
      BoostedAt(rows[1..], show, boost, i - 1);
    }
  }

  /** Every selected row ends with the boost priority and the status "Overnight". */
  lemma {:induction false} BoostPromotesSelected(rows: seq<Job>, show: string, boost: int)
    ensures forall i :: 0 <= i < |rows| && Selected(rows[i], show) ==>
      Boosted(rows, show, boost)[i].priority == boost &&
      Boosted(rows, show, boost)[i].status == Overnight
  {
    forall i | 0 <= i < |rows| && Selected(rows[i], show)
      ensures Boosted(rows, show, boost)[i].priority == boost
      ensures Boosted(rows, show, boost)[i].status == Overnight
    {
      BoostedAt(rows, show, boost, i);
    }
  }

  /** A row outside the selection is unchanged in every column. */
  lemma {:induction false} BoostKeepsUnselected(rows: seq<Job>, show: string, boost: int)
    ensures forall i :: 0 <= i < |rows| && !Selected(rows[i], show) ==>
      Boosted(rows, show, boost)[i] == rows[i]
  {
    forall i | 0 <= i < |rows| && !Selected(rows[i], show)
      ensures Boosted(rows, show, boost)[i] == rows[i]
    {
      BoostedAt(rows, show, boost, i);
    }
  }

  /** No row changes its Job ID, Show Name or frame counts, selected or not. */
  lemma {:induction false} BoostKeepsIdentityAndFrames(rows: seq<Job>, show: string, boost: int)
    ensures forall i :: 0 <= i < |rows| ==>
      var b := Boosted(rows, show, boost)[i];
      b.id == rows[i].id && b.show == rows[i].show &&
      b.framesRequested == rows[i].framesRequested &&
      b.framesCompleted == rows[i].framesCompleted
  {
    forall i | 0 <= i < |rows|
      ensures Boosted(rows, show, boost)[i].id == rows[i].id
      ensures Boosted(rows, show, boost)[i].show == rows[i].show
      ensures Boosted(rows, show, boost)[i].framesRequested == rows[i].framesRequested
      ensures Boosted(rows, show, boost)[i].framesCompleted == rows[i].framesCompleted
    {
      BoostedAt(rows, show, boost, i);
    }
  }

  /** With nothing selected, the boost leaves the table as it was. */
  lemma {:induction false} BoostWithoutSelectionIsIdentity(rows: seq<Job>, show: string, boost: int)
    requires SelectedRows(rows, show) == []
    ensures Boosted(rows, show, boost) == rows
  {
    SelectedRowsEmpty(rows, show);
    BoostKeepsUnselected(rows, show, boost);
  }

  /** After the boost no row of the target show is pending any more. */
  lemma {:induction false} BoostLeavesNothingPending(rows: seq<Job>, show: string, boost: int)
    ensures SelectedRows(Boosted(rows, show, boost), show) == []
  {
    var b := Boosted(rows, show, boost);
    forall i | 0 <= i < |b| ensures !Selected(b[i], show) {
      BoostedAt(rows, show, boost, i);
    }
    SelectedRowsEmpty(b, show);
  }

  /** Two boosts in a row give the table one boost gives. */
  lemma {:induction false} BoostIdempotent(rows: seq<Job>, show: string, boost: int)
    ensures Boosted(Boosted(rows, show, boost), show, boost) == Boosted(rows, show, boost)
  {
    BoostLeavesNothingPending(rows, show, boost);
    BoostWithoutSelectionIsIdentity(Boosted(rows, show, boost), show, boost);
  }
}
