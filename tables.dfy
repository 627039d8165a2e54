/**
 * A pandas DataFrame as the reconciliation code uses it: an ordered header of
 * labels and rows of cells. Column access by label (`df[l]`) reads the first
 * column carrying that label. `WithColumn`, `WithoutColumn` and
 * `WithColumnAt` are the value-level meaning of `df[l] = values`,
 * `df.drop(columns=[l])` and a positional column rewrite; class `DataFrame`
 * performs them in place.
 */
module Tables {
  import opened Wrappers
  import opened Cells

  datatype Table = Table(labels: seq<string>, rows: seq<seq<Cell>>)

  /** Every row has one cell per label. */
  predicate WellFormed(t: Table) {
    forall i | 0 <= i < |t.rows| :: |t.rows[i]| == |t.labels|
  }

  /** pandas `df.empty`: no rows or no columns. */
  predicate IsEmpty(t: Table) {
    |t.rows| == 0 || |t.labels| == 0
  }

  predicate Distinct<T(==)>(s: seq<T>) {
    forall i, j | 0 <= i < j < |s| :: s[i] != s[j]
  }

  // ---------------------------------------------------------------- label access

  /** The cell of `row` under the first column labelled `l`, if any. */
  function LookupCell(labels: seq<string>, row: seq<Cell>, l: string): Option<Cell>
    decreases |labels|
  {
    if labels == [] || row == [] then None
    else if labels[0] == l then Some(row[0])
    else LookupCell(labels[1..], row[1..], l)
  }

  /** `row[l]`, reading an absent column as a missing cell. */
  function Get(labels: seq<string>, row: seq<Cell>, l: string): Cell {
    LookupCell(labels, row, l).GetOr(Missing)
  }

  lemma {:induction false} LookupPresent(labels: seq<string>, row: seq<Cell>, l: string)
    requires |row| == |labels|
    ensures LookupCell(labels, row, l).Some? <==> l in labels
    decreases |labels|
  {
    if labels != [] && labels[0] != l {
      LookupPresent(labels[1..], row[1..], l);
      assert l in labels <==> l in labels[1..];
    }
  }

  /** The first column carrying a label is the one label access reads. */
  lemma {:induction false} LookupAtFirst(labels: seq<string>, row: seq<Cell>, j: nat)
    requires |row| == |labels| && j < |labels|
    requires forall k | 0 <= k < j :: labels[k] != labels[j]
    ensures LookupCell(labels, row, labels[j]) == Some(row[j])
    decreases j
  {
    if j > 0 {
      LookupAtFirst(labels[1..], row[1..], j - 1);
    }
  }

  /** Looking up a label of the left part of a concatenated header reads the left part. */
  lemma {:induction false} LookupPrefix(a: seq<string>, row: seq<Cell>, b: seq<string>, rest: seq<Cell>, m: string)
    requires |row| == |a| && |rest| == |b| && m in a
    ensures LookupCell(a + b, row + rest, m) == LookupCell(a, row, m)
    decreases |a|
  {
    assert (a + b)[0] == a[0] && (row + rest)[0] == row[0];
    if a[0] != m {
      assert (a + b)[1..] == a[1..] + b && (row + rest)[1..] == row[1..] + rest;
      LookupPrefix(a[1..], row[1..], b, rest, m);
    }
  }

  /** Looking up a label absent from the left part skips over it. */
  lemma {:induction false} LookupSkip(a: seq<string>, row: seq<Cell>, b: seq<string>, rest: seq<Cell>, m: string)
    requires |row| == |a| && |rest| == |b| && m !in a
    ensures LookupCell(a + b, row + rest, m) == LookupCell(b, rest, m)
    decreases |a|
  {
    if a == [] {
      assert a + b == b && row + rest == rest;
    } else {
      assert (a + b)[0] == a[0] && (a + b)[1..] == a[1..] + b && (row + rest)[1..] == row[1..] + rest;
      LookupSkip(a[1..], row[1..], b, rest, m);
    }
  }

  // ---------------------------------------------------------------- df[l] = values

  /** Overwrite the cell under the first column labelled `l`. */
  function SetCell(labels: seq<string>, row: seq<Cell>, l: string, v: Cell): (r: seq<Cell>)
    requires |row| == |labels|
    ensures |r| == |row|
    decreases |labels|
  {
    if labels == [] then []
    else if labels[0] == l then [v] + row[1..]
    else [row[0]] + SetCell(labels[1..], row[1..], l, v)
  }

  lemma {:induction false} LookupSetCell(labels: seq<string>, row: seq<Cell>, l: string, v: Cell, m: string)
    requires |row| == |labels| && l in labels
    ensures LookupCell(labels, SetCell(labels, row, l, v), m) == if m == l then Some(v) else LookupCell(labels, row, m)
    decreases |labels|
  {
    var r := SetCell(labels, row, l, v);
    if labels[0] != l {
      assert r[1..] == SetCell(labels[1..], row[1..], l, v);
      if labels[0] != m {
        LookupSetCell(labels[1..], row[1..], l, v, m);
      }
    } else if m != l {
      assert r[1..] == row[1..];
    }
  }

  /** One row after `df[l] = values`: overwritten in place, or extended by a new last column. */
  function SetColumnRow(labels: seq<string>, row: seq<Cell>, l: string, v: Cell): (r: seq<Cell>)
    requires |row| == |labels|
    ensures |r| == if l in labels then |labels| else |labels| + 1
  {
    if l in labels then SetCell(labels, row, l, v) else row + [v]
  }

  lemma LookupSetColumnRow(labels: seq<string>, row: seq<Cell>, l: string, v: Cell, m: string)
    requires |row| == |labels|
    ensures LookupCell(if l in labels then labels else labels + [l], SetColumnRow(labels, row, l, v), m)
            == if m == l then Some(v) else LookupCell(labels, row, m)
  {
    if l in labels {
      LookupSetCell(labels, row, l, v, m);
    } else if m in labels {
      LookupPrefix(labels, row, [l], [v], m);
    } else {
      LookupSkip(labels, row, [l], [v], m);
      LookupPresent(labels, row, m);
    }
  }

  /**
   * `df[l] = values`: the column labelled `l` now holds `values`, every other
   * label reads what it read before, and a new label becomes the last column.
   */
  function WithColumn(t: Table, l: string, vals: seq<Cell>): (r: Table)
    requires WellFormed(t) && |vals| == |t.rows|
    ensures WellFormed(r) && |r.rows| == |t.rows|
    ensures r.labels == if l in t.labels then t.labels else t.labels + [l]
    ensures forall i, m | 0 <= i < |r.rows| ::
      LookupCell(r.labels, r.rows[i], m) == if m == l then Some(vals[i]) else LookupCell(t.labels, t.rows[i], m)
  {
    var labels := if l in t.labels then t.labels else t.labels + [l];
    var rows := seq(|t.rows|, i requires 0 <= i < |t.rows| => SetColumnRow(t.labels, t.rows[i], l, vals[i]));
    assert forall i, m | 0 <= i < |rows| ::
      LookupCell(labels, rows[i], m) == if m == l then Some(vals[i]) else LookupCell(t.labels, t.rows[i], m)
    by {
      forall i, m | 0 <= i < |rows|
        ensures LookupCell(labels, rows[i], m) == if m == l then Some(vals[i]) else LookupCell(t.labels, t.rows[i], m)
      {
        LookupSetColumnRow(t.labels, t.rows[i], l, vals[i], m);
      }
    }
    Table(labels, rows)
  }

  /** `WithColumn` read at one row and one label. */
  lemma GetWithColumn(t: Table, l: string, vals: seq<Cell>, i: nat, m: string)
    requires WellFormed(t) && |vals| == |t.rows| && i < |t.rows|
    ensures var r := WithColumn(t, l, vals);
      Get(r.labels, r.rows[i], m) == if m == l then vals[i] else Get(t.labels, t.rows[i], m)
  {
  }

  // ---------------------------------------------------------------- df.drop(columns=[d])

  /** The header without every column labelled `d`. */
  function DropLabel(labels: seq<string>, d: string): (r: seq<string>)
    ensures forall m :: m in r <==> m in labels && m != d
    decreases |labels|
  {
    if labels == [] then []
    else (if labels[0] == d then [] else [labels[0]]) + DropLabel(labels[1..], d)
  }

  /** A row without the cells under every column labelled `d`. */
  function DropCells(labels: seq<string>, row: seq<Cell>, d: string): (r: seq<Cell>)
    requires |row| == |labels|
    ensures |r| == |DropLabel(labels, d)|
    decreases |labels|
  {
    if labels == [] then []
    else (if labels[0] == d then [] else [row[0]]) + DropCells(labels[1..], row[1..], d)
  }

  lemma {:induction false} LookupDropCells(labels: seq<string>, row: seq<Cell>, d: string, m: string)
    requires |row| == |labels|
    ensures LookupCell(DropLabel(labels, d), DropCells(labels, row, d), m)
            == if m == d then None else LookupCell(labels, row, m)
    decreases |labels|
  {
    if labels != [] {
      LookupDropCells(labels[1..], row[1..], d, m);
      var a, b := DropLabel(labels[1..], d), DropCells(labels[1..], row[1..], d);
      if labels[0] != d {
        assert DropLabel(labels, d) == [labels[0]] + a && DropCells(labels, row, d) == [row[0]] + b;
        assert ([labels[0]] + a)[1..] == a && ([row[0]] + b)[1..] == b;
      } else {
        assert DropLabel(labels, d) == a && DropCells(labels, row, d) == b;
      }
    }
  }

  lemma {:induction false} DropLabelAppend(labels: seq<string>, x: string, d: string)
    ensures DropLabel(labels + [x], d) == DropLabel(labels, d) + (if x == d then [] else [x])
    decreases |labels|
  {
    if labels == [] {
      assert labels + [x] == [x];
    } else {
      assert (labels + [x])[0] == labels[0] && (labels + [x])[1..] == labels[1..] + [x];
      DropLabelAppend(labels[1..], x, d);
    }
  }

  lemma {:induction false} DropLabelConcat(a: seq<string>, b: seq<string>, d: string)
    ensures DropLabel(a + b, d) == DropLabel(a, d) + DropLabel(b, d)
    decreases |a|
  {
    if a == [] {
      assert a + b == b;
    } else {
      assert (a + b)[0] == a[0] && (a + b)[1..] == a[1..] + b;
      DropLabelConcat(a[1..], b, d);
    }
  }

  lemma {:induction false} DropLabelAbsent(labels: seq<string>, d: string)
    requires d !in labels
    ensures DropLabel(labels, d) == labels
    decreases |labels|
  {
    if labels != [] {
      DropLabelAbsent(labels[1..], d);
      assert labels == [labels[0]] + labels[1..];
    }
  }

  /**
   * `df.drop(columns=[d])`: no column labelled `d` is left and every other
   * label reads what it read before.
   */
  function WithoutColumn(t: Table, d: string): (r: Table)
    requires WellFormed(t)
    ensures WellFormed(r) && |r.rows| == |t.rows|
    ensures r.labels == DropLabel(t.labels, d) && d !in r.labels
    ensures forall i, m | 0 <= i < |r.rows| ::
      LookupCell(r.labels, r.rows[i], m) == if m == d then None else LookupCell(t.labels, t.rows[i], m)
  {
    var labels := DropLabel(t.labels, d);
    var rows := seq(|t.rows|, i requires 0 <= i < |t.rows| => DropCells(t.labels, t.rows[i], d));
    assert forall i, m | 0 <= i < |rows| ::
      LookupCell(labels, rows[i], m) == if m == d then None else LookupCell(t.labels, t.rows[i], m)
    by {
      forall i, m | 0 <= i < |rows|
        ensures LookupCell(labels, rows[i], m) == if m == d then None else LookupCell(t.labels, t.rows[i], m)
      {
        LookupDropCells(t.labels, t.rows[i], d, m);
      }
    }
    Table(labels, rows)
  }

  /** `WithoutColumn` read at one row and one label. */
  lemma GetWithoutColumn(t: Table, d: string, i: nat, m: string)
    requires WellFormed(t) && i < |t.rows|
    ensures var r := WithoutColumn(t, d);
      Get(r.labels, r.rows[i], m) == if m == d then Missing else Get(t.labels, t.rows[i], m)
  {
  }

  // ---------------------------------------------------------------- positional columns

  /** The cells of column `j`, top to bottom. */
  function Column(t: Table, j: nat): (c: seq<Cell>)
    requires WellFormed(t) && j < |t.labels|
    ensures |c| == |t.rows|
  {
    seq(|t.rows|, i requires 0 <= i < |t.rows| => t.rows[i][j])
  }

  /** `df[l]` as a column: the cells read by label, missing where there is no such column. */
  function ColumnOf(t: Table, l: string): (c: seq<Cell>)
    ensures |c| == |t.rows|
  {
    seq(|t.rows|, i requires 0 <= i < |t.rows| => Get(t.labels, t.rows[i], l))
  }

  /** Column `j` replaced by `vals`; every other cell unchanged. */
  function WithColumnAt(t: Table, j: nat, vals: seq<Cell>): (r: Table)
    requires WellFormed(t) && j < |t.labels| && |vals| == |t.rows|
    ensures WellFormed(r) && r.labels == t.labels && |r.rows| == |t.rows|
    ensures forall i, k | 0 <= i < |r.rows| && 0 <= k < |r.labels| ::
      r.rows[i][k] == if k == j then vals[i] else t.rows[i][k]
  {
    Table(t.labels, seq(|t.rows|, i requires 0 <= i < |t.rows| => t.rows[i][j := vals[i]]))
  }

  // ---------------------------------------------------------------- row selection

  /** Boolean-mask indexing `rows[mask]`: the rows satisfying `p`, in their order. */
  function Select<T>(xs: seq<T>, p: T -> bool): (r: seq<T>)
    ensures |r| <= |xs|
    ensures forall x | x in r :: x in xs && p(x)
    ensures forall x | x in xs && p(x) :: x in r
    decreases |xs|
  {
    if xs == [] then []
    else (if p(xs[0]) then [xs[0]] else []) + Select(xs[1..], p)
  }

  /** `xs` is `ys` with some elements left out, order kept. */
  predicate IsSubsequence<T(==)>(xs: seq<T>, ys: seq<T>)
    decreases |ys|
  {
    if xs == [] then true
    else if ys == [] then false
    else if xs[0] == ys[0] then IsSubsequence(xs[1..], ys[1..])
    else IsSubsequence(xs, ys[1..])
  }

  lemma {:induction false} SelectIsSubsequence<T>(xs: seq<T>, p: T -> bool)
    ensures IsSubsequence(Select(xs, p), xs)
    decreases |xs|
  {
    if xs != [] {
      var s := Select(xs[1..], p);
      SelectIsSubsequence(xs[1..], p);
      if p(xs[0]) {
        assert Select(xs, p) == [xs[0]] + s;
        assert ([xs[0]] + s)[1..] == s;
      } else {
        assert Select(xs, p) == s;
        if s != [] {
          assert s[0] in s;
          assert s[0] != xs[0];
        }
      }
    }
  }

  lemma ConcatAssoc<T>(x: seq<T>, y: seq<T>, z: seq<T>)
    ensures (x + y) + z == x + (y + z)
  {
  }

  lemma {:induction false} SelectAppend<T>(a: seq<T>, b: seq<T>, p: T -> bool)
    ensures Select(a + b, p) == Select(a, p) + Select(b, p)
    decreases |a|
  {
    if a == [] {
      assert a + b == b;
    } else {
      var ab := a + b;
      var head := if p(a[0]) then [a[0]] else [];
      assert ab[0] == a[0] && ab[1..] == a[1..] + b;
      SelectAppend(a[1..], b, p);
      ConcatAssoc(head, Select(a[1..], p), Select(b, p));
    }
  }

  /** Filtering twice is filtering once by the conjunction. */
  lemma {:induction false} SelectThen<T>(xs: seq<T>, p: T -> bool, q: T -> bool, pq: T -> bool)
    requires forall x :: pq(x) == (p(x) && q(x))
    ensures Select(Select(xs, p), q) == Select(xs, pq)
    decreases |xs|
  {
    if xs != [] {
      var s := Select(xs[1..], p);
      SelectThen(xs[1..], p, q, pq);
      if p(xs[0]) {
        assert Select(xs, p) == [xs[0]] + s;
        assert ([xs[0]] + s)[0] == xs[0] && ([xs[0]] + s)[1..] == s;
        assert Select([xs[0]] + s, q) == (if q(xs[0]) then [xs[0]] else []) + Select(s, q);
      } else {
        assert Select(xs, p) == s;
      }
    }
  }

  /** Filters that agree on every element select the same rows. */
  lemma {:induction false} SelectSame<T>(xs: seq<T>, p: T -> bool, q: T -> bool)
    requires forall x :: p(x) == q(x)
    ensures Select(xs, p) == Select(xs, q)
    decreases |xs|
  {
    if xs != [] {
      SelectSame(xs[1..], p, q);
    }
  }

  /** A filter and its negation split the rows between them, each row exactly once. */
  lemma {:induction false} SelectSplits<T>(xs: seq<T>, p: T -> bool, notP: T -> bool)
    requires forall x :: notP(x) == !p(x)
    ensures multiset(Select(xs, p)) + multiset(Select(xs, notP)) == multiset(xs)
    ensures |Select(xs, p)| + |Select(xs, notP)| == |xs|
    decreases |xs|
  {
    if xs != [] {
      SelectSplits(xs[1..], p, notP);
      assert xs == [xs[0]] + xs[1..];
    }
  }

  // ---------------------------------------------------------------- pd.concat

  /** Labels of `labels2` that `labels1` lacks, in their order. */
  function NewLabels(labels2: seq<string>, labels1: seq<string>): (r: seq<string>)
    ensures forall m :: m in r <==> m in labels2 && m !in labels1
  {
    Select(labels2, (m: string) => m !in labels1)
  }

  /** A row reindexed to `target`: each label reads its cell, or missing. */
  function Reindex(labels: seq<string>, row: seq<Cell>, target: seq<string>): (r: seq<Cell>)
    ensures |r| == |target|
  {
    seq(|target|, k requires 0 <= k < |target| => Get(labels, row, target[k]))
  }

  lemma {:induction false} LookupReindex(labels: seq<string>, row: seq<Cell>, target: seq<string>, m: string)
    requires m in target
    ensures LookupCell(target, Reindex(labels, row, target), m) == Some(Get(labels, row, m))
    decreases |target|
  {
    if target[0] != m {
      assert Reindex(labels, row, target)[1..] == Reindex(labels, row, target[1..]);
      LookupReindex(labels, row, target[1..], m);
    }
  }

  /**
   * `pd.concat([t1, t2], ignore_index=True)`: the rows of `t1` then those of
   * `t2` under the union of the headers (t1's labels first), with missing
   * cells where a table lacks a column.
   */
  function Concat(t1: Table, t2: Table): (r: Table)
    requires WellFormed(t1) && WellFormed(t2)
    ensures WellFormed(r) && |r.rows| == |t1.rows| + |t2.rows|
    ensures r.labels == t1.labels + NewLabels(t2.labels, t1.labels)
  {
    var labels := t1.labels + NewLabels(t2.labels, t1.labels);
    var extra := |labels| - |t1.labels|;
    Table(labels,
      seq(|t1.rows|, i requires 0 <= i < |t1.rows| => t1.rows[i] + seq(extra, _ => Missing))
      + seq(|t2.rows|, j requires 0 <= j < |t2.rows| => Reindex(t2.labels, t2.rows[j], labels)))
  }

  /** A row of missing cells reads missing under every label. */
  lemma {:induction false} LookupAllMissing(labels: seq<string>, row: seq<Cell>, m: string)
    requires forall k | 0 <= k < |row| :: row[k] == Missing
    ensures Get(labels, row, m) == Missing
    decreases |labels|
  {
    if labels != [] && row != [] && labels[0] != m {
      LookupAllMissing(labels[1..], row[1..], m);
    }
  }

  /**
   * The rows of a concatenation are those of `t1`, reading missing under the
   * labels only `t2` has, followed by those of `t2` under every label.
   */
  lemma ConcatRows(t1: Table, t2: Table, m: string)
    requires WellFormed(t1) && WellFormed(t2)
    ensures var r := Concat(t1, t2);
      (forall i | 0 <= i < |t1.rows| :: Get(r.labels, r.rows[i], m) == Get(t1.labels, t1.rows[i], m))
      && (forall j | 0 <= j < |t2.rows| :: Get(r.labels, r.rows[|t1.rows| + j], m) == Get(t2.labels, t2.rows[j], m))
  {
    var r := Concat(t1, t2);
    var extra := NewLabels(t2.labels, t1.labels);
    forall i | 0 <= i < |t1.rows|
      ensures Get(r.labels, r.rows[i], m) == Get(t1.labels, t1.rows[i], m)
    {
      var pad := seq(|extra|, _ => Missing);
      assert r.rows[i] == t1.rows[i] + pad;
      if m in t1.labels {
        LookupPrefix(t1.labels, t1.rows[i], extra, pad, m);
      } else {
        LookupSkip(t1.labels, t1.rows[i], extra, pad, m);
        LookupPresent(t1.labels, t1.rows[i], m);
        LookupAllMissing(extra, pad, m);
      }
    }
    forall j | 0 <= j < |t2.rows|
      ensures Get(r.labels, r.rows[|t1.rows| + j], m) == Get(t2.labels, t2.rows[j], m)
    {
      assert r.rows[|t1.rows| + j] == Reindex(t2.labels, t2.rows[j], r.labels);
      if m in r.labels {
        LookupReindex(t2.labels, t2.rows[j], r.labels, m);
      } else {
        LookupPresent(r.labels, r.rows[|t1.rows| + j], m);
        LookupPresent(t2.labels, t2.rows[j], m);
      }
    }
  }

  // ---------------------------------------------------------------- in place

  /** A DataFrame whose columns are added, overwritten and dropped in place. */
  class DataFrame {
    var labels: seq<string>
    var rows: seq<seq<Cell>>

    function Snapshot(): Table
      reads this
    {
      Table(labels, rows)
    }

    predicate Valid()
      reads this
    {
      WellFormed(Snapshot())
    }

    /** `df.copy()` of a table. */
    constructor (t: Table)
      requires WellFormed(t)
      ensures Valid() && Snapshot() == t
    {
      labels := t.labels;
      rows := t.rows;
    }

    /** `df[l] = vals` */
    method SetColumn(l: string, vals: seq<Cell>)
      requires Valid() && |vals| == |rows|
      modifies this
      ensures Valid() && Snapshot() == WithColumn(old(Snapshot()), l, vals)
    {
      var r := WithColumn(Snapshot(), l, vals);
      labels, rows := r.labels, r.rows;
    }

    /** `df.drop(columns=[d], inplace=True)` */
    method DropColumn(d: string)
      requires Valid()
      modifies this
      ensures Valid() && Snapshot() == WithoutColumn(old(Snapshot()), d)
    {
      var r := WithoutColumn(Snapshot(), d);
      labels, rows := r.labels, r.rows;
    }

    /** `df[df.columns[j]] = vals` for the column at position `j`. */
    method SetColumnAt(j: nat, vals: seq<Cell>)
      requires Valid() && j < |labels| && |vals| == |rows|
      modifies this
      ensures Valid() && Snapshot() == WithColumnAt(old(Snapshot()), j, vals)
    {
      var r := WithColumnAt(Snapshot(), j, vals);
      labels, rows := r.labels, r.rows;
    }

    /** `df.columns = ls`: a new header of the same width over the same rows. */
    method Relabel(ls: seq<string>)
      requires Valid() && |ls| == |labels|
      modifies this
      ensures Valid() && Snapshot() == Table(ls, old(rows))
    {
      labels := ls;
    }
  }
}
