/**
 * The report filter: rows kept when they match the chosen professional,
 * procedure and city (trimmed, case-insensitive) and fall in the date range.
 */
module RowFilter {
  import opened Wrappers
  import opened Strings
  import opened Cells
  import opened Tables
  import opened ColumnResolver

  /** The filter's inputs; an empty text or a missing date means "not given". */
  datatype Query = Query(professional: string, start: Option<CalendarDate>, end: Option<CalendarDate>,
                         procedure: string, city: string)

  const NoDateWarning: string := "\U{26A0}\U{FE0F} No hay columna de fecha."

  // ---------------------------------------------------------------- columns

  /** `next(c for c in df.columns if any(k in str(c).lower() ...))`, keywords taken as written. */
  function FirstWith(labels: seq<string>, keywords: seq<string>): Option<string> {
    LabelAt(labels, FindColumn(labels, keywords))
  }

  function ProfessionalColumn(labels: seq<string>): Option<string> {
    FirstWith(labels, ["profesional"])
  }

  function ProcedureColumn(labels: seq<string>): Option<string> {
    FirstWith(labels, ["nombre procedimiento"])
  }

  /** Lines 285-287: a city or municipality column, else a site ("sede") column. */
  function CityColumn(labels: seq<string>): Option<string> {
    var c := FirstWith(labels, ["ciudad", "municipio"]);
    if c.Some? then c else FirstWith(labels, ["sede"])
  }

  function DateColumn(labels: seq<string>): Option<string> {
    FirstWith(labels, ["fecha"])
  }

  // ---------------------------------------------------------------- the row test

  /** Trimmed, lower-cased text of a cell: the form both sides of an equality filter are compared in. */
  function Folded(c: Cell): string {
    Lower(Trim(AsText(c)))
  }

  /** An equality filter: passed when no value is given, when there is no column, or when the row matches. */
  predicate Matches(labels: seq<string>, row: seq<Cell>, col: Option<string>, value: string) {
    value == "" || col.None? || Folded(Get(labels, row, col.value)) == Lower(Trim(value))
  }

  /** Inclusive date bounds; a row without a readable date fails every bound given. */
  predicate InRange(d: Option<CalendarDate>, start: Option<CalendarDate>, end: Option<CalendarDate>) {
    (start.None? || (d.Some? && DateLeq(start.value, d.value)))
    && (end.None? || (d.Some? && DateLeq(d.value, end.value)))
  }

  predicate DateOk(labels: seq<string>, q: Query, parse: DateParser, row: seq<Cell>) {
    var dc := DateColumn(labels);
    dc.None? || InRange(ToDate(parse, Get(labels, row, dc.value)), q.start, q.end)
  }

  /** Whether a row survives the whole filter: the reference the step-by-step filter is proved against. */
  predicate KeepRow(labels: seq<string>, q: Query, parse: DateParser, row: seq<Cell>) {
    Matches(labels, row, ProfessionalColumn(labels), q.professional)
    && Matches(labels, row, ProcedureColumn(labels), q.procedure)
    && Matches(labels, row, CityColumn(labels), q.city)
    && DateOk(labels, q, parse, row)
  }

  // ---------------------------------------------------------------- masks

  /** Boolean-mask indexing with a mask of the same length. */
  function Masked<T>(xs: seq<T>, mask: seq<bool>): (r: seq<T>)
    requires |mask| == |xs|
    decreases |xs|
  {
    if xs == [] then [] else (if mask[0] then [xs[0]] else []) + Masked(xs[1..], mask[1..])
  }

  /** A mask computed row by row from a test selects what the test selects. */
  lemma {:induction false} MaskedSelect<T>(xs: seq<T>, p: T -> bool, mask: seq<bool>)
    requires |mask| == |xs| && forall i | 0 <= i < |xs| :: mask[i] == p(xs[i])
    ensures Masked(xs, mask) == Select(xs, p)
    decreases |xs|
  {
    if xs != [] {
      MaskedSelect(xs[1..], p, mask[1..]);
    }
  }

  /** A test every element passes selects everything. */
  lemma {:induction false} SelectAll<T>(xs: seq<T>, p: T -> bool)
    requires forall i | 0 <= i < |xs| :: p(xs[i])
    ensures Select(xs, p) == xs
    decreases |xs|
  {
    if xs != [] {
      SelectAll(xs[1..], p);
      assert xs == [xs[0]] + xs[1..];
    }
  }

  /** One filter step: either applied (`Select` by `p`) or skipped, when `p` holds everywhere anyway. */
  lemma Step<T>(xs: seq<T>, before: T -> bool, p: T -> bool, after: T -> bool, applied: bool)
    requires forall x :: after(x) == (before(x) && p(x))
    requires !applied ==> forall x :: p(x)
    ensures (if applied then Select(Select(xs, before), p) else Select(xs, before)) == Select(xs, after)
  {
    if applied {
      SelectThen(xs, before, p, after);
    } else {
      SelectSame(xs, before, after);
    }
  }

  // ---------------------------------------------------------------- filtrar_datos

  /**
   * One equality filter of lines 276-290, applied to rows already filtered
   * by `before`: the rows then satisfy `after`, which adds this filter's test.
   */
  method FilterEquals(xs: seq<seq<Cell>>, before: seq<Cell> -> bool, after: seq<Cell> -> bool,
                      rows: seq<seq<Cell>>, labels: seq<string>, col: Option<string>, value: string)
    returns (out: seq<seq<Cell>>)
    requires rows == Select(xs, before)
    requires forall row :: after(row) == (before(row) && Matches(labels, row, col, value))
    ensures out == Select(xs, after)
  {
    var p := (row: seq<Cell>) => Matches(labels, row, col, value);
    Step(xs, before, p, after, value != "" && col.Some?);
    if value != "" && col.Some? {
      out := Select(rows, (row: seq<Cell>) => Folded(Get(labels, row, col.value)) == Lower(Trim(value)));
      SelectSame(rows, (row: seq<Cell>) => Folded(Get(labels, row, col.value)) == Lower(Trim(value)), p);
    } else {
      out := rows;
    }
  }

  /** Lines 293-299: the date mask, built bound by bound, applied to rows already filtered by `before`. */
  method FilterDates(xs: seq<seq<Cell>>, before: seq<Cell> -> bool, after: seq<Cell> -> bool,
                     rows: seq<seq<Cell>>, labels: seq<string>, q: Query, parse: DateParser)
    returns (out: seq<seq<Cell>>)
    requires rows == Select(xs, before) && DateColumn(labels).Some?
    requires forall row :: after(row) == (before(row) && DateOk(labels, q, parse, row))
    ensures out == Select(xs, after)
  {
    var dc := DateColumn(labels).value;
    var p := (row: seq<Cell>) => DateOk(labels, q, parse, row);
    SelectThen(xs, before, p, after);
    var dates := seq(|rows|, i requires 0 <= i < |rows| => ToDate(parse, Get(labels, rows[i], dc)));
    var mask := seq(|rows|, _ => true);
    if q.start.Some? {
      mask := seq(|rows|, i requires 0 <= i < |rows| => mask[i] && dates[i].Some? && DateLeq(q.start.value, dates[i].value));
    }
    if q.end.Some? {
      mask := seq(|rows|, i requires 0 <= i < |rows| => mask[i] && dates[i].Some? && DateLeq(dates[i].value, q.end.value));
    }
    MaskedSelect(rows, p, mask);
    out := Masked(rows, mask);
  }

  /**
   * Lines 267-308: the kept rows, in order, and the warning text; without a
   * table, an empty table and no warning.
   */
  method FilterData(df: Option<Table>, q: Query, parse: DateParser) returns (r: Table, warning: string)
    ensures df.None? ==> r == Table([], []) && warning == ""
    ensures df.Some? ==>
      r.labels == df.value.labels
      && r.rows == Select(df.value.rows, (row: seq<Cell>) => KeepRow(df.value.labels, q, parse, row))
    ensures df.Some? ==>
      (warning == "" <==> DateColumn(df.value.labels).Some?)
      && (warning == NoDateWarning <==> DateColumn(df.value.labels).None?)
  {
    warning := "";
    if df.None? {
      return Table([], []), warning;
    }
    var t := df.value;
    var labels := t.labels;
    var p0 := (row: seq<Cell>) => true;
    SelectAll(t.rows, p0);

    var prof := ProfessionalColumn(labels);
    var p1 := (row: seq<Cell>) => Matches(labels, row, prof, q.professional);
    var rows := FilterEquals(t.rows, p0, p1, t.rows, labels, prof, q.professional);

    var proc := ProcedureColumn(labels);
    var p2 := (row: seq<Cell>) => p1(row) && Matches(labels, row, proc, q.procedure);
    rows := FilterEquals(t.rows, p1, p2, rows, labels, proc, q.procedure);

    var city := FirstWith(labels, ["ciudad", "municipio"]);
    if city.None? {
      city := FirstWith(labels, ["sede"]);
    }
    var p3 := (row: seq<Cell>) => p2(row) && Matches(labels, row, city, q.city);
    rows := FilterEquals(t.rows, p2, p3, rows, labels, city, q.city);

    var keep := (row: seq<Cell>) => KeepRow(labels, q, parse, row);
    if DateColumn(labels).Some? {
      rows := FilterDates(t.rows, p3, keep, rows, labels, q, parse);
    } else {
      SelectSame(t.rows, p3, keep);
      warning := warning + NoDateWarning;
    }
    r := Table(labels, rows);
  }

  // ---------------------------------------------------------------- properties

  /** The filter returns rows of the input in their order, exactly those `KeepRow` accepts. */
  lemma FilterKeeps(t: Table, q: Query, parse: DateParser)
    ensures var kept := Select(t.rows, (row: seq<Cell>) => KeepRow(t.labels, q, parse, row));
      IsSubsequence(kept, t.rows)
      && forall row :: row in kept <==> row in t.rows && KeepRow(t.labels, q, parse, row)
  {
    SelectIsSubsequence(t.rows, (row: seq<Cell>) => KeepRow(t.labels, q, parse, row));
  }

  /** With nothing chosen every row is kept, whatever the dates. */
  lemma EmptyQueryKeepsAll(t: Table, parse: DateParser)
    ensures Select(t.rows, (row: seq<Cell>) => KeepRow(t.labels, Query("", None, None, "", ""), parse, row)) == t.rows
  {
    SelectAll(t.rows, (row: seq<Cell>) => KeepRow(t.labels, Query("", None, None, "", ""), parse, row));
  }

  /** A kept row matches every chosen value whose column exists, after trimming and lower-casing both. */
  lemma KeptRowMatches(t: Table, q: Query, parse: DateParser, row: seq<Cell>)
    requires KeepRow(t.labels, q, parse, row)
    ensures q.professional != "" && ProfessionalColumn(t.labels).Some? ==>
      Folded(Get(t.labels, row, ProfessionalColumn(t.labels).value)) == Lower(Trim(q.professional))
    ensures q.procedure != "" && ProcedureColumn(t.labels).Some? ==>
      Folded(Get(t.labels, row, ProcedureColumn(t.labels).value)) == Lower(Trim(q.procedure))
    ensures q.city != "" && CityColumn(t.labels).Some? ==>
      Folded(Get(t.labels, row, CityColumn(t.labels).value)) == Lower(Trim(q.city))
  {
  }

  /** The bounds are inclusive: a row dated on either bound is in range. */
  lemma BoundsInclusive(d: CalendarDate, e: CalendarDate)
    requires DateLeq(d, e)
    ensures InRange(Some(d), Some(d), Some(e)) && InRange(Some(e), Some(d), Some(e))
  {
  }

  /** A row whose date cannot be read is dropped as soon as one bound is given. */
  lemma UnreadableDateDropped(start: Option<CalendarDate>, end: Option<CalendarDate>)
    ensures InRange(None, start, end) <==> start.None? && end.None?
  {
  }

  /** A city or municipality column, when there is one, is always used before a site column. */
  lemma CityBeforeSite(labels: seq<string>)
    ensures FindColumn(labels, ["ciudad", "municipio"]).Some? ==>
      CityColumn(labels) == Some(labels[FindColumn(labels, ["ciudad", "municipio"]).value])
    ensures CityColumn(labels).Some? <==>
      FindColumn(labels, ["ciudad", "municipio"]).Some? || FindColumn(labels, ["sede"]).Some?
  {
  }
}
