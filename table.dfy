/**
 * The render-job table that the loader reads and the analyzer works on:
 * an ordered sequence of rows with the columns Job ID, Show Name, Status,
 * Priority, Frames Requested and Frames Completed.
 */
module Table {

  /** One row of the table. Frame counts are not validated by the program, so they are plain ints. */
  datatype Job = Job(
    id: string,
    show: string,
    status: string,
    priority: int,
    framesRequested: int,
    framesCompleted: int)

  /** The status literals the rule passes compare with or write. */
  const Pending: string := "PENDING"
  const Overnight: string := "Overnight"
  const Failed: string := "FAILED"

  /** The rows of `s` that satisfy `p`, in their original order (a boolean row selection). */
  function Filter<T(!new)>(p: T -> bool, s: seq<T>): (r: seq<T>)
    ensures |r| <= |s|
    ensures forall x :: x in r <==> x in s && p(x)
  {
    if s == [] then []
    else (if p(s[0]) then [s[0]] else []) + Filter(p, s[1..])
  }

  /** Selecting from two stacked tables is stacking the two selections: the order of rows is kept. */
  lemma {:induction false} FilterAppend<T(!new)>(p: T -> bool, a: seq<T>, b: seq<T>)
    ensures Filter(p, a + b) == Filter(p, a) + Filter(p, b)
  {
    if a == [] {
      assert a + b == b;
    } else {
      assert (a + b)[1..] == a[1..] + b;
      FilterAppend(p, a[1..], b);
    }
  }

  /** A selection is empty exactly when no row satisfies the predicate. */
  lemma {:induction false} FilterEmpty<T(!new)>(p: T -> bool, s: seq<T>)
    ensures Filter(p, s) == [] <==> forall i :: 0 <= i < |s| ==> !p(s[i])
  {
    if Filter(p, s) != [] {
      var x := Filter(p, s)[0];
      assert x in Filter(p, s);
      var i :| 0 <= i < |s| && s[i] == x;
      assert p(s[i]);
    }
    if exists i :: 0 <= i < |s| && p(s[i]) {
      var i :| 0 <= i < |s| && p(s[i]);
      assert s[i] in Filter(p, s);
    }
  }

  /** `ids` lists the Job IDs of `rows`, one per row and in the same order. */
  predicate ListsIds(ids: seq<string>, rows: seq<Job>)
  {
    |ids| == |rows| && forall k :: 0 <= k < |rows| ==> ids[k] == rows[k].id
  }
}
