/** The two answer tables (`MCQSubmission`, `CrosswordAnswer`) as sequences
    of rows, with the `unique_together` constraint on (attempt, item), the
    `update_or_create` upsert used by both submit operations, and the
    `Sum('points_awarded')` aggregate used by `_compute_score`. */
module SubmissionTables {
  import opened Models

  predicate SameKey<V>(r: Submission<V>, attempt: AttemptId, item: int)
  {
    r.attempt == attempt && r.item == item
  }

  /** `unique_together = ('attempt', <item>)`. */
  predicate KeysUnique<V>(rows: seq<Submission<V>>)
  {
    forall i, j | 0 <= i < j < |rows| ::
      !SameKey(rows[j], rows[i].attempt, rows[i].item)
  }

  /** The position of the row for (attempt, item), if there is one. */
  function Find<V>(rows: seq<Submission<V>>, attempt: AttemptId, item: int): (r: Option<nat>)
    ensures r.Some? ==> r.value < |rows| && SameKey(rows[r.value], attempt, item)
    ensures r.None? ==> forall i | 0 <= i < |rows| :: !SameKey(rows[i], attempt, item)
  {
    if |rows| == 0 then None
    else if SameKey(rows[0], attempt, item) then Some(0)
    else
      match Find(rows[1..], attempt, item)
      case None => None
      case Some(k) => Some(k + 1)
  }

  /** In a table with unique keys the row for a key is the one `Find` returns. */
  lemma FindUnique<V>(rows: seq<Submission<V>>, i: nat)
    requires KeysUnique(rows) && i < |rows|
    ensures Find(rows, rows[i].attempt, rows[i].item) == Some(i)
  {
  }

  /** `update_or_create(attempt=…, <item>=…, defaults=…)`: overwrite the row
      for the key in place, or append a new row. */
  function Upsert<V>(rows: seq<Submission<V>>, row: Submission<V>): (r: seq<Submission<V>>)
    ensures row in r
    ensures |rows| <= |r| <= |rows| + 1
  {
    match Find(rows, row.attempt, row.item)
    case Some(i) => assert rows[i := row][i] == row; rows[i := row]
    case None => assert (rows + [row])[|rows|] == row; rows + [row]
  }

  /** After an upsert the table still has unique keys, holds exactly one row
      for the new row's key (the new row itself), and keeps every other row. */
  lemma UpsertSpec<V>(rows: seq<Submission<V>>, row: Submission<V>)
    requires KeysUnique(rows)
    ensures KeysUnique(Upsert(rows, row))
    ensures row in Upsert(rows, row)
    ensures forall i | 0 <= i < |Upsert(rows, row)| && SameKey(Upsert(rows, row)[i], row.attempt, row.item) ::
      Upsert(rows, row)[i] == row
    ensures forall x | !SameKey(x, row.attempt, row.item) :: x in Upsert(rows, row) <==> x in rows
    ensures |Upsert(rows, row)| == |rows| + (if Find(rows, row.attempt, row.item).Some? then 0 else 1)
  {
    var r := Upsert(rows, row);
    match Find(rows, row.attempt, row.item)
    case Some(k) =>
      assert r[k] == row;
      forall x | !SameKey(x, row.attempt, row.item)
        ensures x in r <==> x in rows
      {
        if x in rows {
          var j :| 0 <= j < |rows| && rows[j] == x;
          assert j != k && r[j] == x;
        }
      }
    case None =>
      assert r[|rows|] == row;
  }

  /** Submitting twice for the same key leaves what submitting the second
      row alone would: later values overwrite, they never accumulate. */
  lemma UpsertOverwrites<V>(rows: seq<Submission<V>>, first: Submission<V>, second: Submission<V>)
    requires KeysUnique(rows)
    requires first.attempt == second.attempt && first.item == second.item
    ensures Upsert(Upsert(rows, first), second) == Upsert(rows, second)
  {
    UpsertSpec(rows, first);
    var mid := Upsert(rows, first);
    match Find(rows, first.attempt, first.item)
    case Some(k) =>
      FindUnique(mid, k);
    case None =>
      FindUnique(mid, |rows|);
      assert (rows + [first])[|rows| := second] == rows + [second];
  }

  /** One row's share of an attempt's total. */
  function Share<V>(r: Submission<V>, attempt: AttemptId): int
  {
    if r.attempt == attempt then r.pointsAwarded else 0
  }

  /** `Sum('points_awarded')` over the rows of one attempt, 0 when none. */
  function PointsFor<V>(rows: seq<Submission<V>>, attempt: AttemptId): int
  {
    if |rows| == 0 then 0 else Share(rows[0], attempt) + PointsFor(rows[1..], attempt)
  }

  predicate PointsNonNegative<V>(rows: seq<Submission<V>>)
  {
    forall i | 0 <= i < |rows| :: rows[i].pointsAwarded >= 0
  }

  lemma {:induction false} PointsForNonNegative<V>(rows: seq<Submission<V>>, attempt: AttemptId)
    requires PointsNonNegative(rows)
    ensures PointsFor(rows, attempt) >= 0
  {
    if |rows| > 0 {
      PointsForNonNegative(rows[1..], attempt);
    }
  }

  /** An attempt with no rows totals 0. */
  lemma {:induction false} PointsForNoRows<V>(rows: seq<Submission<V>>, attempt: AttemptId)
    requires forall i | 0 <= i < |rows| :: rows[i].attempt != attempt
    ensures PointsFor(rows, attempt) == 0
  {
    if |rows| > 0 {
      PointsForNoRows(rows[1..], attempt);
    }
  }

  lemma {:induction false} PointsForUpdate<V>(rows: seq<Submission<V>>, i: nat, x: Submission<V>, attempt: AttemptId)
    requires i < |rows|
    ensures PointsFor(rows[i := x], attempt) == PointsFor(rows, attempt) - Share(rows[i], attempt) + Share(x, attempt)
  {
    if i > 0 {
      assert rows[i := x][1..] == rows[1..][i - 1 := x];
      PointsForUpdate(rows[1..], i - 1, x, attempt);
    } else {
      assert rows[i := x][1..] == rows[1..];
    }
  }

  lemma {:induction false} PointsForAppend<V>(rows: seq<Submission<V>>, x: Submission<V>, attempt: AttemptId)
    ensures PointsFor(rows + [x], attempt) == PointsFor(rows, attempt) + Share(x, attempt)
  {
    if |rows| == 0 {
      assert rows + [x] == [x];
    } else {
      assert (rows + [x])[1..] == rows[1..] + [x];
      PointsForAppend(rows[1..], x, attempt);
    }
  }

  /** The points a key currently holds: those of its row, or 0. */
  function Previous<V>(rows: seq<Submission<V>>, attempt: AttemptId, item: int): int
  {
    match Find(rows, attempt, item)
    case Some(i) => rows[i].pointsAwarded
    case None => 0
  }

  /** An upsert replaces the key's previous points by the new row's points in
      its attempt's total, and leaves every other attempt's total alone. */
  lemma UpsertPoints<V>(rows: seq<Submission<V>>, row: Submission<V>, attempt: AttemptId)
    ensures PointsFor(Upsert(rows, row), attempt) ==
      if attempt == row.attempt
      then PointsFor(rows, attempt) - Previous(rows, row.attempt, row.item) + row.pointsAwarded
      else PointsFor(rows, attempt)
  {
    match Find(rows, row.attempt, row.item)
    case Some(i) => PointsForUpdate(rows, i, row, attempt);
    case None => PointsForAppend(rows, row, attempt);
  }
}
