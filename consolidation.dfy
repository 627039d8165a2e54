/**
 * Loading the uploaded workbooks: the professional names of the first
 * workbook cleaned, then the two workbooks consolidated (prices looked up in
 * the second and the consolidated workbook exported), stacked, or one of
 * them taken alone, and the header trimmed; with nothing usable uploaded,
 * the table already in the session or the one saved on disk.
 */
module Consolidation {
  import opened Wrappers
  import opened Strings
  import opened Cells
  import opened Tables
  import opened ColumnResolver
  import opened Normalizer
  import opened PriceEnricher
  import opened ExportSanitizer

  const ProfessionalCandidates: seq<string> := ["profesional", "nombre profesional"]

  /** A reference-price column the export leaves out of the consolidated table. */
  const RefUnitLabel: string := "Valor_Unitario_Ref"

  /** What loading produces: the working table (if any) and the consolidated workbook written, if one was. */
  datatype Loaded = Loaded(table: Option<Table>, workbook: Option<Table>)

  /** An upload read as a table; no upload reads as the empty DataFrame. */
  function Read(file: Option<Table>): Table {
    file.GetOr(Table([], []))
  }

  /** The session's table when there is one, else the table saved on disk (if that could be read). */
  function Fallback(session: Option<Table>, saved: Option<Table>): Option<Table> {
    if session.Some? then session else saved
  }

  // ---------------------------------------------------------------- line 107

  /** The professional column's cells as text with the leading code removed. */
  function StrippedNames(t: Table, col: string): (c: seq<Cell>)
    ensures |c| == |t.rows|
  {
    seq(|t.rows|, i requires 0 <= i < |t.rows| => Text(StripProfessionalPrefix(AsText(Get(t.labels, t.rows[i], col)))))
  }

  /** Lines 105-107: the professional column of the first workbook rewritten, if it has one. */
  function WithStrippedNames(t: Table): (r: Table)
    requires WellFormed(t)
    ensures WellFormed(r) && r.labels == t.labels && |r.rows| == |t.rows|
  {
    var c := FindLabel(t.labels, ProfessionalCandidates);
    if Truthy(c) then WithColumn(t, c.value, StrippedNames(t, c.value)) else t
  }

  /** The dtype of each column, as pandas holds it for the label. */
  function KindsOf(t: Table, dtypeOf: string -> Kind): (ks: seq<Kind>)
    ensures |ks| == |t.labels|
  {
    seq(|t.labels|, j requires 0 <= j < |t.labels| => dtypeOf(t.labels[j]))
  }

  /** Line 242: the header trimmed, the rows as they are. */
  function TrimmedLabels(t: Table): (r: Table)
    requires WellFormed(t)
    ensures WellFormed(r) && r.rows == t.rows && forall k | 0 <= k < |r.labels| :: IsTrimmed(r.labels[k])
  {
    Table(TrimAll(t.labels), t.rows)
  }

  // ---------------------------------------------------------------- leer_excel

  /** The consolidated table before its header is trimmed, when enrichment applies. */
  function Reduced(e: Enrichment): (r: Table)
    requires WellFormed(e.table)
    ensures WellFormed(r) && |r.rows| == |e.table.rows|
  {
    if RefUnitLabel in e.table.labels then WithoutColumn(e.table, RefUnitLabel) else e.table
  }

  /** Lines 109-233 for two non-empty workbooks: by price lookup when possible, else stacked. */
  function Merged(p: Table, t2: Table, dtypeOf: string -> Kind, parse: DateParser): (r: Loaded)
    requires WellFormed(p) && WellFormed(t2)
  {
    if Feasible(ResolveRoles(p, t2)) then
      var e := Enriched(p, t2);
      var d := Reduced(e);
      Loaded(Some(TrimmedLabels(d)), Some(Exported(d, KindsOf(d, dtypeOf), e.unitLabel, e.totalLabel, parse)))
    else
      Loaded(Some(TrimmedLabels(Concat(p, t2))), None)
  }

  /** Lines 85-245: what loading yields for the uploads, the session's table and the saved one. */
  function Consolidated(file1: Option<Table>, file2: Option<Table>, session: Option<Table>, saved: Option<Table>,
                        dtypeOf: string -> Kind, parse: DateParser): (r: Loaded)
    requires file1.Some? ==> WellFormed(file1.value)
    requires file2.Some? ==> WellFormed(file2.value)
  {
    if file1.None? && file2.None? then Loaded(Fallback(session, saved), None)
    else
      var p := WithStrippedNames(Read(file1));
      var t2 := Read(file2);
      if !IsEmpty(p) && !IsEmpty(t2) then Merged(p, t2, dtypeOf, parse)
      else if !IsEmpty(p) then Loaded(Some(TrimmedLabels(p)), None)
      else if !IsEmpty(t2) then Loaded(Some(TrimmedLabels(t2)), None)
      else Loaded(Fallback(session, saved), None)
  }

  /**
   * Lines 109-233 on the first workbook in place: prices looked up and totals
   * computed, the reference column dropped and the result exported; or, when
   * the lookup does not apply, the second workbook stacked below the first.
   */
  method Merge(df: DataFrame, t2: Table, dtypeOf: string -> Kind, parse: DateParser) returns (r: Loaded)
    requires df.Valid() && WellFormed(t2)
    modifies df
    ensures r == Merged(old(df.Snapshot()), t2, dtypeOf, parse)
    ensures df.Valid()
    ensures Feasible(ResolveRoles(old(df.Snapshot()), t2)) ==> r.table == Some(df.Snapshot())
    ensures !Feasible(ResolveRoles(old(df.Snapshot()), t2)) ==> df.Snapshot() == old(df.Snapshot())
  {
    var before := df.Snapshot();
    if Feasible(ResolveRoles(before, t2)) {
      var unitLabel, totalLabel := Enrich(df, t2);
      if RefUnitLabel in df.labels {
        df.DropColumn(RefUnitLabel);
      }
      assert df.Snapshot() == Reduced(Enriched(before, t2));
      var exported := Export(df.Snapshot(), KindsOf(df.Snapshot(), dtypeOf), unitLabel, totalLabel, parse);
      df.Relabel(TrimAll(df.labels));
      r := Loaded(Some(df.Snapshot()), Some(exported));
    } else {
      var stacked := new DataFrame(Concat(before, t2));
      stacked.Relabel(TrimAll(stacked.labels));
      r := Loaded(Some(stacked.Snapshot()), None);
    }
  }

  /**
   * `leer_excel`, with the first workbook changed in place: names cleaned,
   * prices looked up and totals computed, the reference column dropped, the
   * header trimmed.
   */
  method Load(file1: Option<Table>, file2: Option<Table>, session: Option<Table>, saved: Option<Table>,
              dtypeOf: string -> Kind, parse: DateParser) returns (r: Loaded)
    requires file1.Some? ==> WellFormed(file1.value)
    requires file2.Some? ==> WellFormed(file2.value)
    ensures r == Consolidated(file1, file2, session, saved, dtypeOf, parse)
  {
    if file1.None? && file2.None? {
      return Loaded(Fallback(session, saved), None);
    }
    var df := new DataFrame(Read(file1));
    var t2 := Read(file2);
    var c := FindLabel(df.labels, ProfessionalCandidates);
    if Truthy(c) {
      df.SetColumn(c.value, StrippedNames(df.Snapshot(), c.value));
    }
    assert df.Snapshot() == WithStrippedNames(Read(file1));
    if !IsEmpty(df.Snapshot()) && !IsEmpty(t2) {
      r := Merge(df, t2, dtypeOf, parse);
    } else if !IsEmpty(df.Snapshot()) {
      df.Relabel(TrimAll(df.labels));
      r := Loaded(Some(df.Snapshot()), None);
    } else if !IsEmpty(t2) {
      var other := new DataFrame(t2);
      other.Relabel(TrimAll(other.labels));
      r := Loaded(Some(other.Snapshot()), None);
    } else {
      r := Loaded(Fallback(session, saved), None);
    }
  }

  // ---------------------------------------------------------------- properties

  /** Only the professional column changes: each of its cells becomes the stripped text. */
  lemma StrippedNamesCell(t: Table, i: nat, m: string)
    requires WellFormed(t) && i < |t.rows|
    ensures var c := FindLabel(t.labels, ProfessionalCandidates); var r := WithStrippedNames(t);
      Get(r.labels, r.rows[i], m) ==
        if Truthy(c) && m == c.value then Text(StripProfessionalPrefix(AsText(Get(t.labels, t.rows[i], m))))
        else Get(t.labels, t.rows[i], m)
  {
    var c := FindLabel(t.labels, ProfessionalCandidates);
    if Truthy(c) {
      GetWithColumn(t, c.value, StrippedNames(t, c.value), i, m);
    }
  }

  /** With no upload at all, or only empty ones, loading returns the earlier table and writes no workbook. */
  lemma NothingUsableFallsBack(file1: Option<Table>, file2: Option<Table>, session: Option<Table>, saved: Option<Table>,
                               dtypeOf: string -> Kind, parse: DateParser)
    requires file1.Some? ==> WellFormed(file1.value)
    requires file2.Some? ==> WellFormed(file2.value)
    requires IsEmpty(Read(file1)) && IsEmpty(Read(file2))
    ensures Consolidated(file1, file2, session, saved, dtypeOf, parse) == Loaded(Fallback(session, saved), None)
  {
  }

  /** A usable upload always yields a table whose labels are all trimmed. */
  lemma LoadedHeaderTrimmed(file1: Option<Table>, file2: Option<Table>, session: Option<Table>, saved: Option<Table>,
                            dtypeOf: string -> Kind, parse: DateParser)
    requires file1.Some? ==> WellFormed(file1.value)
    requires file2.Some? ==> WellFormed(file2.value)
    requires !IsEmpty(Read(file1)) || !IsEmpty(Read(file2))
    ensures var r := Consolidated(file1, file2, session, saved, dtypeOf, parse);
      r.table.Some? && forall k | 0 <= k < |r.table.value.labels| :: IsTrimmed(r.table.value.labels[k])
  {
  }

  /**
   * A workbook is written exactly when both uploads have data and the price
   * lookup applies to them; its header is then distinct and trimmed, and the
   * working table has one row per row of the first upload.
   */
  lemma WorkbookIffLookup(file1: Option<Table>, file2: Option<Table>, session: Option<Table>, saved: Option<Table>,
                          dtypeOf: string -> Kind, parse: DateParser)
    requires file1.Some? ==> WellFormed(file1.value)
    requires file2.Some? ==> WellFormed(file2.value)
    ensures var r := Consolidated(file1, file2, session, saved, dtypeOf, parse);
      (r.workbook.Some? <==>
        !IsEmpty(Read(file1)) && !IsEmpty(Read(file2)) && Feasible(ResolveRoles(Read(file1), Read(file2))))
      && (r.workbook.Some? ==>
        Distinct(r.workbook.value.labels)
        && (forall k | 0 <= k < |r.workbook.value.labels| :: IsTrimmed(r.workbook.value.labels[k]))
        && r.table.Some? && |r.table.value.rows| == |Read(file1).rows|)
  {
    var p := WithStrippedNames(Read(file1));
    assert ResolveRoles(p, Read(file2)) == ResolveRoles(Read(file1), Read(file2));
  }

  /** Without a price lookup, two non-empty uploads are stacked: every row of both is kept. */
  lemma StackedWithoutLookup(file1: Option<Table>, file2: Option<Table>, session: Option<Table>, saved: Option<Table>,
                             dtypeOf: string -> Kind, parse: DateParser)
    requires file1.Some? ==> WellFormed(file1.value)
    requires file2.Some? ==> WellFormed(file2.value)
    requires !IsEmpty(Read(file1)) && !IsEmpty(Read(file2)) && !Feasible(ResolveRoles(Read(file1), Read(file2)))
    ensures var r := Consolidated(file1, file2, session, saved, dtypeOf, parse);
      r.workbook.None? && r.table.Some?
      && |r.table.value.rows| == |Read(file1).rows| + |Read(file2).rows|
      && r.table.value.labels == TrimAll(Read(file1).labels + NewLabels(Read(file2).labels, Read(file1).labels))
  {
    var p := WithStrippedNames(Read(file1));
    assert ResolveRoles(p, Read(file2)) == ResolveRoles(Read(file1), Read(file2));
  }

  /** A single non-empty upload is taken as it is, apart from the cleaned names and the trimmed header. */
  lemma SingleUploadKept(file1: Option<Table>, file2: Option<Table>, session: Option<Table>, saved: Option<Table>,
                         dtypeOf: string -> Kind, parse: DateParser)
    requires file1.Some? ==> WellFormed(file1.value)
    requires file2.Some? ==> WellFormed(file2.value)
    requires IsEmpty(Read(file1)) != IsEmpty(Read(file2))
    ensures var r := Consolidated(file1, file2, session, saved, dtypeOf, parse);
      r.workbook.None?
      && r.table == Some(TrimmedLabels(if IsEmpty(Read(file2)) then WithStrippedNames(Read(file1)) else Read(file2)))
  {
  }
}
