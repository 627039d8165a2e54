/**
 * One spreadsheet cell as pandas reads it from an uploaded workbook: text,
 * a number, a calendar date, or missing (NaN/None/NaT), with the two
 * coercions the reconciliation code applies to cells: `astype(str)` and
 * `pd.to_numeric(errors='coerce')`.
 */
module Cells {
  import opened Wrappers
  import opened Numerals

  datatype CalendarDate = CalendarDate(year: nat, month: nat, day: nat)

  /** Chronological order of calendar dates. */
  predicate DateLeq(a: CalendarDate, b: CalendarDate) {
    a.year < b.year
    || (a.year == b.year && (a.month < b.month || (a.month == b.month && a.day <= b.day)))
  }

  datatype Cell = Text(text: string) | Num(value: int) | Date(date: CalendarDate) | Missing

  /** Text of a timestamp at midnight, as `str()` renders it. */
  function DateText(d: CalendarDate): string {
    ZeroPad(d.year, 4) + "-" + ZeroPad(d.month, 2) + "-" + ZeroPad(d.day, 2) + " 00:00:00"
  }

  /** `astype(str)`: a missing cell becomes the text "nan". */
  function AsText(c: Cell): string {
    match c
    case Text(s) => s
    case Num(n) => IntToString(n)
    case Date(d) => DateText(d)
    case Missing => "nan"
  }

  /** `pd.to_numeric(errors='coerce')`: None stands for the NaN it yields. */
  function AsNumber(c: Cell): Option<int> {
    match c
    case Text(s) => ParseInt(s)
    case Num(n) => Some(n)
    case Date(_) => None
    case Missing => None
  }

  /** A number written out as text reads back as the same number. */
  lemma AsNumberOfText(n: int)
    ensures AsNumber(Text(AsText(Num(n)))) == Some(n)
  {
    ParseIntToString(n);
  }

  /**
   * A date parser of the kind `pd.to_datetime(errors='coerce', dayfirst=True)`
   * is: supplied from outside, consulted only for text and number cells.
   */
  type DateParser = Cell -> Option<CalendarDate>

  /** Date-typed cells stay as they are, missing cells stay missing. */
  function ToDate(parse: DateParser, c: Cell): (r: Option<CalendarDate>)
    ensures c.Date? ==> r == Some(c.date)
    ensures c.Missing? ==> r.None?
  {
    match c
    case Date(d) => Some(d)
    case Missing => None
    case _ => parse(c)
  }
}
