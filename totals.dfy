/**
 * The report's headline figure: the sum of the positive amounts in the value
 * column, the column labelled exactly "valor" (ignoring case and surrounding
 * blanks) having priority over any label that merely contains "valor".
 */
module Totals {
  import opened Wrappers
  import opened Strings
  import opened Cells
  import opened Tables
  import opened ColumnResolver

  /** Each label as `str(c).strip().lower()` renders it. */
  function Folded(labels: seq<string>): (r: seq<string>)
    ensures |r| == |labels|
  {
    seq(|labels|, i requires 0 <= i < |labels| => Lower(Trim(labels[i])))
  }

  /** The first position holding `target`. */
  function FirstIndexOf(xs: seq<string>, target: string): (r: Option<nat>)
    ensures r.Some? ==> r.value < |xs| && xs[r.value] == target
    ensures r.Some? ==> forall k | 0 <= k < r.value :: xs[k] != target
    ensures r.None? <==> forall k | 0 <= k < |xs| :: xs[k] != target
    decreases |xs|
  {
    if xs == [] then None
    else if xs[0] == target then Some(0)
    else match FirstIndexOf(xs[1..], target)
      case None => None
      case Some(j) => Some(j + 1)
  }

  /** The label that is exactly `target`, else the first label containing a keyword. */
  function PreferExact(labels: seq<string>, target: string, keywords: seq<string>): Option<string> {
    var exact := LabelAt(labels, FirstIndexOf(Folded(labels), target));
    if Truthy(exact) then exact else LabelAt(labels, FindColumn(labels, keywords))
  }

  /** Lines 311-313: the label that is exactly "valor", else the first label containing "valor". */
  function ValueColumn(labels: seq<string>): Option<string> {
    PreferExact(labels, "valor", ["valor"])
  }

  /** A positive amount as it counts towards the total; anything else counts nothing. */
  function Amount(c: Cell): (r: int)
    ensures r >= 0
  {
    var n := AsNumber(c);
    if n.Some? && n.value > 0 then n.value else 0
  }

  /** `serie[serie > 0].sum()`: the positive numeric cells added up; text that is no number and gaps count nothing. */
  function PositiveSum(cells: seq<Cell>): (r: int)
    ensures r >= 0
    decreases |cells|
  {
    if cells == [] then 0 else Amount(cells[0]) + PositiveSum(cells[1..])
  }

  /** Lines 310-319: the positive sum over the value column, or 0 without one. */
  function Total(t: Table): (r: int)
    ensures r >= 0
  {
    var col := ValueColumn(t.labels);
    if Truthy(col) then PositiveSum(ColumnOf(t, col.value)) else 0
  }

  // ---------------------------------------------------------------- properties

  /** The sum over two runs of cells is the sum of the two sums. */
  lemma {:induction false} PositiveSumAppend(a: seq<Cell>, b: seq<Cell>)
    ensures PositiveSum(a + b) == PositiveSum(a) + PositiveSum(b)
    decreases |a|
  {
    if a != [] {
      var ab := a + b;
      assert ab != [] && ab[0] == a[0] && ab[1..] == a[1..] + b;
      PositiveSumAppend(a[1..], b);
      assert PositiveSum(ab) == Amount(a[0]) + PositiveSum(a[1..] + b);
    } else {
      assert a + b == b;
    }
  }

  /** Positive (readable) amount in a cell. */
  predicate Positive(c: Cell) {
    AsNumber(c).Some? && AsNumber(c).value > 0
  }

  /** The sum is zero exactly when no cell holds a positive number. */
  lemma {:induction false} PositiveSumZeroIff(cells: seq<Cell>)
    ensures PositiveSum(cells) == 0 <==> forall i | 0 <= i < |cells| :: !Positive(cells[i])
    decreases |cells|
  {
    if cells != [] {
      PositiveSumZeroIff(cells[1..]);
      if forall i | 0 <= i < |cells| :: !Positive(cells[i]) {
        forall i | 0 <= i < |cells[1..]| ensures !Positive(cells[1..][i]) {
          assert cells[1..][i] == cells[i + 1];
        }
      }
      if PositiveSum(cells) == 0 {
        forall i | 0 <= i < |cells| ensures !Positive(cells[i]) {
          if i > 0 {
            assert cells[i] == cells[1..][i - 1];
          }
        }
      }
    }
  }

  /** Every positive amount is counted in full: none of them exceeds the total. */
  lemma {:induction false} PositiveSumBounds(cells: seq<Cell>, i: nat)
    requires i < |cells| && Positive(cells[i])
    ensures AsNumber(cells[i]).value <= PositiveSum(cells)
    decreases |cells|
  {
    if i > 0 {
      assert cells[i] == cells[1..][i - 1];
      PositiveSumBounds(cells[1..], i - 1);
    }
  }

  /** The first position holding the target is the one found. */
  lemma FirstIndexOfIs(xs: seq<string>, target: string, j: nat)
    requires j < |xs| && xs[j] == target
    requires forall k | 0 <= k < j :: xs[k] != target
    ensures FirstIndexOf(xs, target) == Some(j)
  {
  }

  /** A label that folds to a non-empty target is not empty itself. */
  lemma FoldsToNonEmpty(l: string, target: string)
    requires Lower(Trim(l)) == target && target != ""
    ensures l != ""
  {
  }

  /** A label that is exactly the target wins over an earlier one that only contains a keyword. */
  lemma ExactPreferred(labels: seq<string>, target: string, keywords: seq<string>, j: nat)
    requires j < |labels| && Lower(Trim(labels[j])) == target && target != ""
    requires forall k | 0 <= k < j :: Lower(Trim(labels[k])) != target
    ensures PreferExact(labels, target, keywords) == Some(labels[j])
  {
    FirstIndexOfIs(Folded(labels), target, j);
    FoldsToNonEmpty(labels[j], target);
  }

  /** A label that is exactly "valor" wins over an earlier one that only contains it. */
  lemma ExactLabelPreferred(labels: seq<string>, j: nat)
    requires j < |labels| && Lower(Trim(labels[j])) == "valor"
    requires forall k | 0 <= k < j :: Lower(Trim(labels[k])) != "valor"
    ensures ValueColumn(labels) == Some(labels[j])
  {
    ExactPreferred(labels, "valor", ["valor"], j);
  }

  /** Reading one column of a table whose rows are extended reads the new rows after the old. */
  lemma ColumnOfAppend(t: Table, more: seq<seq<Cell>>, l: string)
    ensures ColumnOf(Table(t.labels, t.rows + more), l) == ColumnOf(t, l) + ColumnOf(Table(t.labels, more), l)
  {
    var t2 := Table(t.labels, t.rows + more);
    var lhs := ColumnOf(t2, l);
    var rhs := ColumnOf(t, l) + ColumnOf(Table(t.labels, more), l);
    forall i | 0 <= i < |lhs| ensures lhs[i] == rhs[i] {
      if i < |t.rows| {
        assert t2.rows[i] == t.rows[i];
      } else {
        assert t2.rows[i] == more[i - |t.rows|];
      }
    }
  }

  /** Totals of two reports with the same header add up when their rows are put together. */
  lemma TotalConcat(a: Table, b: Table)
    requires WellFormed(a) && WellFormed(b) && a.labels == b.labels
    ensures Total(Table(a.labels, a.rows + b.rows)) == Total(a) + Total(b)
  {
    var col := ValueColumn(a.labels);
    if Truthy(col) {
      ColumnOfAppend(a, b.rows, col.value);
      assert Table(a.labels, b.rows) == b;
      PositiveSumAppend(ColumnOf(a, col.value), ColumnOf(b, col.value));
    }
  }

  /** A row whose amount is not positive (a refund, a blank, a note) leaves the total as it is. */
  lemma NonPositiveRowIgnored(t: Table, row: seq<Cell>)
    requires WellFormed(t) && |row| == |t.labels|
    requires Truthy(ValueColumn(t.labels)) ==> !Positive(Get(t.labels, row, ValueColumn(t.labels).value))
    ensures Total(Table(t.labels, t.rows + [row])) == Total(t)
  {
    var col := ValueColumn(t.labels);
    if Truthy(col) {
      ColumnOfAppend(t, [row], col.value);
      assert ColumnOf(Table(t.labels, [row]), col.value) == [Get(t.labels, row, col.value)];
      PositiveSumAppend(ColumnOf(t, col.value), [Get(t.labels, row, col.value)]);
    }
  }
}
