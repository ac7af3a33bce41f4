/**
  The module-level screening in ion_processing.py: keep the samples with a
  total dissolved solids value of at least 1000 mg/L, then those with a charge
  balance below 0.1, and count the rows kept and excluded at each stage.
*/
module Thresholds {
  import opened Wrappers
  import opened Frames

  /** `b` can be obtained from `a` by deleting elements: `b` keeps `a`'s order. */
  ghost predicate IsSubsequence<T>(b: seq<T>, a: seq<T>)
  {
    if b == [] then true
    else if a == [] then false
    else (b[0] == a[0] && IsSubsequence(b[1..], a[1..])) || IsSubsequence(b, a[1..])
  }

  /** Boolean-mask selection `s[mask]`: the elements that pass `keep`, in order. */
  function Where<T(==)>(s: seq<T>, keep: T -> bool): (kept: seq<T>)
    ensures |kept| <= |s|
    ensures forall x :: x in kept ==> x in s && keep(x)
    ensures forall i :: 0 <= i < |s| && keep(s[i]) ==> s[i] in kept
    ensures IsSubsequence(kept, s)
  {
    if s == [] then []
    else if keep(s[0]) then [s[0]] + Where(s[1..], keep)
    else Where(s[1..], keep)
  }

  /** Every passing element is kept as often as it occurs; no failing element is kept. */
  lemma {:induction false} WhereMultiplicity<T>(s: seq<T>, keep: T -> bool, x: T)
    ensures multiset(Where(s, keep))[x] == if keep(x) then multiset(s)[x] else 0
  {
    if s != [] {
      WhereMultiplicity(s[1..], keep, x);
      assert s == [s[0]] + s[1..];
    }
  }

  /** Filtering twice is filtering once by the conjunction. */
  lemma {:induction false} WhereWhere<T>(s: seq<T>, p: T -> bool, q: T -> bool, both: T -> bool)
    requires forall x :: both(x) == (p(x) && q(x))
    ensures Where(Where(s, p), q) == Where(s, both)
  {
    if s != [] {
      WhereWhere(s[1..], p, q, both);
      if p(s[0]) {
        assert Where(s, p) == [s[0]] + Where(s[1..], p);
        assert Where(s, p)[1..] == Where(s[1..], p);
      }
    }
  }

  /** Rows that pass and rows that fail a test account for every row. */
  lemma {:induction false} WherePartition<T>(s: seq<T>, keep: T -> bool, drop: T -> bool)
    requires forall x :: x in s ==> (drop(x) <==> !keep(x))
    ensures |Where(s, keep)| + |Where(s, drop)| == |s|
  {
    if s != [] {
      WherePartition(s[1..], keep, drop);
    }
  }

  /** `t[t[column] <test>]`: look the column up, then keep the rows that pass. */
  function Filter(t: Table, column: string, keep: Row -> bool): (r: Result<Table, TableError>)
    requires t.WellFormed()
    ensures r.Failure? <==> column !in t.columns
    ensures r.Failure? ==> r.error == KeyError(column)
    ensures r.Success? ==> r.value.WellFormed() && r.value.columns == t.columns
    ensures r.Success? ==> r.value.rows == Where(t.rows, keep)
  {
    if column !in t.columns then Failure(KeyError(column))
    else Success(Table(t.columns, Where(t.rows, keep)))
  }

  const TDS_COLUMN := "TDS_mgL"
  const CHARGE_BALANCE_COLUMN := "charge_balance_eq"

  /** `data['TDS_mgL'] >= 1000` for one row. */
  predicate HighTds(row: Row) { TDS_COLUMN in row && row[TDS_COLUMN] >= 1000.0 }
  /** The rows the first stage reports as excluded: TDS below 1000 mg/L. */
  predicate LowTds(row: Row) { TDS_COLUMN in row && row[TDS_COLUMN] < 1000.0 }
  /** `filtered_data['charge_balance_eq'] < 0.1` for one row. */
  predicate Balanced(row: Row) { CHARGE_BALANCE_COLUMN in row && row[CHARGE_BALANCE_COLUMN] < 0.1 }
  /** The rows the second stage reports as excluded: charge balance of 0.1 or more. */
  predicate Unbalanced(row: Row) { CHARGE_BALANCE_COLUMN in row && row[CHARGE_BALANCE_COLUMN] >= 0.1 }
  /** Both thresholds at once. */
  predicate HighTdsAndBalanced(row: Row) { HighTds(row) && Balanced(row) }

  /** The row counts the screening reports. */
  datatype Counts = Counts(total: nat, filtered: nat, excluded: nat, filtered2: nat, excluded2: nat)

  /**
    The two filter stages with their counts. The kept rows are exactly the
    rows meeting both thresholds; each excluded count is the number of rows
    the stage's message describes.
  */
  function Screen(data: Table): (r: Result<(Table, Counts), TableError>)
    requires data.WellFormed()
    ensures r.Failure? <==> TDS_COLUMN !in data.columns || CHARGE_BALANCE_COLUMN !in data.columns
    ensures r.Failure? ==>
              r.error == KeyError(if TDS_COLUMN !in data.columns then TDS_COLUMN else CHARGE_BALANCE_COLUMN)
    ensures r.Success? ==> r.value.0.columns == data.columns && r.value.0.rows == Where(data.rows, HighTdsAndBalanced)
    ensures r.Success? ==> var c := r.value.1;
              && c.total == |data.rows|
              && c.filtered == |Where(data.rows, HighTds)|
              && c.filtered2 == |r.value.0.rows|
              && c.filtered2 <= c.filtered <= c.total
              && c.excluded == |Where(data.rows, LowTds)|
              && c.excluded2 == |Where(Where(data.rows, HighTds), Unbalanced)|
  {
    var stage1 := Filter(data, TDS_COLUMN, HighTds);
    if stage1.Failure? then Failure(stage1.error)
    else
      var filtered := stage1.value;
      var stage2 := Filter(filtered, CHARGE_BALANCE_COLUMN, Balanced);
      if stage2.Failure? then Failure(stage2.error)
      else
        var filtered2 := stage2.value;
        var total, kept, kept2 := |data.rows|, |filtered.rows|, |filtered2.rows|;
        ScreenCounts(data, filtered);
        Success((filtered2, Counts(total, kept, total - kept, kept2, kept - kept2)))
  }

  /** The facts `Screen` needs about the two stages. */
  lemma ScreenCounts(data: Table, filtered: Table)
    requires data.WellFormed() && TDS_COLUMN in data.columns && CHARGE_BALANCE_COLUMN in data.columns
    requires filtered.rows == Where(data.rows, HighTds)
    ensures Where(filtered.rows, Balanced) == Where(data.rows, HighTdsAndBalanced)
    ensures |data.rows| - |filtered.rows| == |Where(data.rows, LowTds)|
    ensures |filtered.rows| - |Where(filtered.rows, Balanced)| == |Where(filtered.rows, Unbalanced)|
  {
    WhereWhere(data.rows, HighTds, Balanced, HighTdsAndBalanced);
    WherePartition(data.rows, HighTds, LowTds);
    WherePartition(filtered.rows, Balanced, Unbalanced);
  }
}
