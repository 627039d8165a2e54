/**
 * Price enrichment of a services table (table 1) from a reference price list
 * (table 2): rows of table 1 find a unit price by trimmed code, or failing
 * that by trimmed lower-cased name; the unit column is repaired, the total
 * column becomes unit times quantity, and the working columns are dropped.
 * The chain of column operations `Enriched` defines the result; the method
 * `Enrich` performs the same steps in place on a `DataFrame`.
 */
module PriceEnricher {
  import opened Wrappers
  import opened Strings
  import opened Cells
  import opened Tables
  import opened ColumnResolver
  import opened Normalizer

  const CodeKeywords: seq<string> := ["codigo procedimiento", "cod procedimiento", "codigo", "cups"]
  const NameKeywords: seq<string> := ["nombre procedimiento", "procedimiento", "descripcion", "nombre"]
  const RefUnitKeywords: seq<string> := ["valor unitario", "valor_unitario", "precio", "valor"]
  const UnitKeywords: seq<string> := ["valor unitario", "valor_unitario", "precio unitario"]
  const QtyKeywords: seq<string> := ["cantidad", "cant"]
  const TotalKeywords: seq<string> := ["valor total", "total", "valor neto", "neto", "valor"]

  /** Working columns added to table 1 and dropped at the end. */
  const TempCode: string := "_temp_code"
  const TempName: string := "_temp_name"
  const Found: string := "__Valor_Encontrado__"
  const WorkingLabels: seq<string> := [TempCode, TempName, Found]

  /** Labels used when no unit or total column is found. */
  const DefaultUnit: string := "Valor Unitario"
  const DefaultTotal: string := "Valor"

  // ---------------------------------------------------------------- roles and feasibility

  /** The columns `find_col` picks in each table. */
  datatype Roles = Roles(code1: Option<string>, code2: Option<string>,
                         name1: Option<string>, name2: Option<string>, unit2: Option<string>)

  function ResolveRoles(t1: Table, t2: Table): Roles {
    Roles(FindLabel(t1.labels, CodeKeywords), FindLabel(t2.labels, CodeKeywords),
          FindLabel(t1.labels, NameKeywords), FindLabel(t2.labels, NameKeywords),
          FindLabel(t2.labels, RefUnitKeywords))
  }

  predicate ByCode(r: Roles) {
    Truthy(r.code1) && Truthy(r.code2)
  }

  predicate ByName(r: Roles) {
    Truthy(r.name1) && Truthy(r.name2)
  }

  /** Enrichment runs when the reference has a unit column and both tables share a code or a name column. */
  predicate Feasible(r: Roles) {
    Truthy(r.unit2) && (ByCode(r) || ByName(r))
  }

  // ---------------------------------------------------------------- price maps

  /**
   * `df2.dropna(subset=[price]).drop_duplicates(subset=[key])
   *      .set_index(key)[price].to_dict()`: the first priced row of each key.
   */
  function PriceMap(keys: seq<string>, prices: seq<Cell>): (m: map<string, Cell>)
    requires |keys| == |prices|
    ensures forall k | k in m :: m[k] != Missing
    decreases |keys|
  {
    if keys == [] then map[]
    else
      var rest := PriceMap(keys[1..], prices[1..]);
      if prices[0].Missing? then rest else rest[keys[0] := prices[0]]
  }

  /** Row `j` is priced, carries key `k`, and no earlier priced row does. */
  predicate FirstPriced(keys: seq<string>, prices: seq<Cell>, k: string, j: nat)
    requires |keys| == |prices|
  {
    j < |keys| && keys[j] == k && !prices[j].Missing?
    && forall j' | 0 <= j' < j :: keys[j'] == k ==> prices[j'].Missing?
  }

  /** A key has a price exactly when some priced row carries it. */
  lemma {:induction false} PriceMapDomain(keys: seq<string>, prices: seq<Cell>, k: string)
    requires |keys| == |prices|
    ensures k in PriceMap(keys, prices) <==> exists j | 0 <= j < |keys| :: keys[j] == k && !prices[j].Missing?
    decreases |keys|
  {
    if keys != [] {
      PriceMapDomain(keys[1..], prices[1..], k);
      if exists j | 0 <= j < |keys| :: keys[j] == k && !prices[j].Missing? {
        var j :| 0 <= j < |keys| && keys[j] == k && !prices[j].Missing?;
        if j > 0 {
          assert keys[1..][j - 1] == k && !prices[1..][j - 1].Missing?;
        }
      }
      forall j | 0 <= j < |keys| - 1 && keys[1..][j] == k && !prices[1..][j].Missing?
        ensures keys[j + 1] == k && !prices[j + 1].Missing?
      {
      }
    }
  }

  /** The first priced row of a key supplies its price: later duplicates never override it. */
  lemma {:induction false} PriceMapFirst(keys: seq<string>, prices: seq<Cell>, k: string, j: nat)
    requires |keys| == |prices| && FirstPriced(keys, prices, k, j)
    ensures k in PriceMap(keys, prices) && PriceMap(keys, prices)[k] == prices[j]
    decreases |keys|
  {
    if j > 0 {
      assert keys[0] == k ==> prices[0].Missing?;
      PriceMapFirst(keys[1..], prices[1..], k, j - 1);
    }
  }

  /** `Series.map(dict)`: a key without an entry maps to a missing cell. */
  function Lookup(m: map<string, Cell>, k: string): Cell {
    if k in m then m[k] else Missing
  }

  /** Reference prices: the first column matching the unit keywords of table 2. */
  function RefPrices(t2: Table, r: Roles): (ps: seq<Cell>)
    requires Truthy(r.unit2)
    ensures |ps| == |t2.rows|
  {
    ColumnOf(t2, r.unit2.value)
  }

  /** Line 123: the trimmed codes of table 2. */
  function RefCodeKeys(t2: Table, r: Roles): (ks: seq<string>)
    requires Truthy(r.code2)
    ensures |ks| == |t2.rows|
  {
    seq(|t2.rows|, i requires 0 <= i < |t2.rows| => CodeKey(Get(t2.labels, t2.rows[i], r.code2.value)))
  }

  /** Line 126: the trimmed lower-cased names of table 2. */
  function RefNameKeys(t2: Table, r: Roles): (ks: seq<string>)
    requires Truthy(r.name2)
    ensures |ks| == |t2.rows|
  {
    seq(|t2.rows|, i requires 0 <= i < |t2.rows| => NameKey(Get(t2.labels, t2.rows[i], r.name2.value)))
  }

  function CodePriceMap(t2: Table, r: Roles): map<string, Cell>
    requires Truthy(r.code2) && Truthy(r.unit2)
  {
    PriceMap(RefCodeKeys(t2, r), RefPrices(t2, r))
  }

  function NamePriceMap(t2: Table, r: Roles): map<string, Cell>
    requires Truthy(r.name2) && Truthy(r.unit2)
  {
    PriceMap(RefNameKeys(t2, r), RefPrices(t2, r))
  }

  // ---------------------------------------------------------------- the steps on table 1

  function Blank(n: nat): (c: seq<Cell>)
    ensures |c| == n
  {
    seq(n, _ => Missing)
  }

  function Zeros(n: nat): (c: seq<Cell>)
    ensures |c| == n
  {
    seq(n, _ => Num(0))
  }

  function CodeKeys(t: Table, col: string): (c: seq<Cell>)
    ensures |c| == |t.rows|
  {
    seq(|t.rows|, i requires 0 <= i < |t.rows| => Text(CodeKey(Get(t.labels, t.rows[i], col))))
  }

  function NameKeys(t: Table, col: string): (c: seq<Cell>)
    ensures |c| == |t.rows|
  {
    seq(|t.rows|, i requires 0 <= i < |t.rows| => Text(NameKey(Get(t.labels, t.rows[i], col))))
  }

  /** Lines 122 and 125: the working key columns of table 1. */
  function WithKeys(t: Table, r: Roles): (s: Table)
    requires WellFormed(t)
    ensures WellFormed(s) && |s.rows| == |t.rows|
  {
    var a := if Truthy(r.code1) then WithColumn(t, TempCode, CodeKeys(t, r.code1.value)) else t;
    if Truthy(r.name1) then WithColumn(a, TempName, NameKeys(a, r.name1.value)) else a
  }

  /** Line 134: each row's code key looked up in the code price map. */
  function CodeMatches(t: Table, m: map<string, Cell>): (c: seq<Cell>)
    ensures |c| == |t.rows|
  {
    seq(|t.rows|, i requires 0 <= i < |t.rows| => Lookup(m, AsText(Get(t.labels, t.rows[i], TempCode))))
  }

  /** Lines 140-141: rows still without a price look their name key up in the name price map. */
  function NameFill(t: Table, m: map<string, Cell>): (c: seq<Cell>)
    ensures |c| == |t.rows|
  {
    seq(|t.rows|, i requires 0 <= i < |t.rows| =>
      var f := Get(t.labels, t.rows[i], Found);
      if f.Missing? then Lookup(m, AsText(Get(t.labels, t.rows[i], TempName))) else f)
  }

  /** Lines 128-141: the column of found prices. */
  function WithFoundPrices(t: Table, t2: Table, r: Roles): (s: Table)
    requires WellFormed(t) && Truthy(r.unit2)
    ensures WellFormed(s) && |s.rows| == |t.rows|
  {
    var a := WithColumn(t, Found, Blank(|t.rows|));
    var b := if ByCode(r) then WithColumn(a, Found, CodeMatches(a, CodePriceMap(t2, r))) else a;
    if ByName(r) then WithColumn(b, Found, NameFill(b, NamePriceMap(t2, r))) else b
  }

  /** `vals_nuevos.combine_first(vals_actuales)`: the found price if numeric, else the old value if numeric, else 0. */
  function ResolvedUnit(found: Cell, current: Cell): int {
    match AsNumber(found)
    case Some(v) => v
    case None => AsNumber(current).GetOr(0)
  }

  function RepairedUnits(t: Table, col: string): (c: seq<Cell>)
    ensures |c| == |t.rows|
  {
    seq(|t.rows|, i requires 0 <= i < |t.rows| =>
      Num(ResolvedUnit(Get(t.labels, t.rows[i], Found), Get(t.labels, t.rows[i], col))))
  }

  datatype UnitRepair = UnitRepair(table: Table, unitLabel: string)

  /** Lines 143-152: choose or add the unit column, then fill it with the resolved unit values. */
  function RepairUnits(t: Table): (u: UnitRepair)
    requires WellFormed(t)
    ensures WellFormed(u.table) && |u.table.rows| == |t.rows|
  {
    var found := FindLabel(t.labels, UnitKeywords);
    var col := if Truthy(found) then found.value else DefaultUnit;
    var a := if !Truthy(found) && DefaultUnit !in t.labels then WithColumn(t, DefaultUnit, Zeros(|t.rows|)) else t;
    UnitRepair(WithColumn(a, col, RepairedUnits(a, col)), col)
  }

  /** Lines 154-158: the coerced quantity of a row, 1 when missing, not numeric or without a column. */
  function Quantity(t: Table, qty: Option<string>, row: seq<Cell>): int {
    if Truthy(qty) then AsNumber(Get(t.labels, row, qty.value)).GetOr(1) else 1
  }

  function Totals(t: Table, unitLabel: string, qty: Option<string>): (c: seq<Cell>)
    ensures |c| == |t.rows|
  {
    seq(|t.rows|, i requires 0 <= i < |t.rows| =>
      Num(AsNumber(Get(t.labels, t.rows[i], unitLabel)).GetOr(0) * Quantity(t, qty, t.rows[i])))
  }

  datatype TotalsStep = TotalsStep(table: Table, totalLabel: string)

  /** Lines 154-163: the total column, looked up on the current header, becomes unit times quantity. */
  function ApplyTotals(t: Table, unitLabel: string): (s: TotalsStep)
    requires WellFormed(t)
    ensures WellFormed(s.table) && |s.table.rows| == |t.rows|
  {
    var qty := FindLabel(t.labels, QtyKeywords);
    var found := FindLabel(t.labels, TotalKeywords);
    var col := if Truthy(found) then found.value else DefaultTotal;
    TotalsStep(WithColumn(t, col, Totals(t, unitLabel, qty)), col)
  }

  /** The header after dropping each of `ds` in turn. */
  function DropLabels(labels: seq<string>, ds: seq<string>): seq<string>
    decreases |ds|
  {
    if ds == [] then labels else DropLabel(DropLabels(labels, ds[..|ds| - 1]), ds[|ds| - 1])
  }

  /** Lines 165-168: every column carrying one of `ds` dropped, in order. */
  function WithoutColumns(t: Table, ds: seq<string>): (r: Table)
    requires WellFormed(t)
    ensures WellFormed(r) && |r.rows| == |t.rows| && r.labels == DropLabels(t.labels, ds)
    ensures forall d | d in ds :: d !in r.labels
    ensures forall i, m | 0 <= i < |r.rows| && m !in ds ::
      LookupCell(r.labels, r.rows[i], m) == LookupCell(t.labels, t.rows[i], m)
    decreases |ds|
  {
    if ds == [] then t
    else
      var before := WithoutColumns(t, ds[..|ds| - 1]);
      assert forall d | d in ds :: d in ds[..|ds| - 1] || d == ds[|ds| - 1];
      assert forall d | d in ds[..|ds| - 1] :: d in ds;
      var r := WithoutColumn(before, ds[|ds| - 1]);
      assert forall i, m | 0 <= i < |r.rows| && m !in ds ::
        LookupCell(r.labels, r.rows[i], m) == LookupCell(t.labels, t.rows[i], m)
      by {
        forall i, m | 0 <= i < |r.rows| && m !in ds
          ensures LookupCell(r.labels, r.rows[i], m) == LookupCell(t.labels, t.rows[i], m)
        {
          assert m != ds[|ds| - 1] && m !in ds[..|ds| - 1];
          assert LookupCell(r.labels, r.rows[i], m) == LookupCell(before.labels, before.rows[i], m);
        }
      }
      r
  }

  datatype Enrichment = Enrichment(table: Table, unitLabel: string, totalLabel: string)

  /** Lines 119-168, when enrichment is feasible: the enriched table and the unit and total labels chosen. */
  function Enriched(t1: Table, t2: Table): (e: Enrichment)
    requires WellFormed(t1) && Feasible(ResolveRoles(t1, t2))
    ensures WellFormed(e.table) && |e.table.rows| == |t1.rows|
    ensures forall w | w in WorkingLabels :: w !in e.table.labels
  {
    var r := ResolveRoles(t1, t2);
    var k := WithKeys(t1, r);
    var f := WithFoundPrices(k, t2, r);
    var u := RepairUnits(f);
    var s := ApplyTotals(u.table, u.unitLabel);
    Enrichment(WithoutColumns(s.table, WorkingLabels), u.unitLabel, s.totalLabel)
  }

  // ---------------------------------------------------------------- in place

  /** Lines 122 and 125 in place. */
  method AddKeys(df: DataFrame, r: Roles)
    requires df.Valid()
    modifies df
    ensures df.Valid() && df.Snapshot() == WithKeys(old(df.Snapshot()), r)
  {
    if Truthy(r.code1) {
      df.SetColumn(TempCode, CodeKeys(df.Snapshot(), r.code1.value));
    }
    if Truthy(r.name1) {
      df.SetColumn(TempName, NameKeys(df.Snapshot(), r.name1.value));
    }
  }

  /** Lines 128-141 in place, including the masked assignment for rows still without a price. */
  method AddFoundPrices(df: DataFrame, t2: Table, r: Roles)
    requires df.Valid() && Truthy(r.unit2)
    modifies df
    ensures df.Valid() && df.Snapshot() == WithFoundPrices(old(df.Snapshot()), t2, r)
  {
    df.SetColumn(Found, Blank(|df.rows|));
    if ByCode(r) {
      df.SetColumn(Found, CodeMatches(df.Snapshot(), CodePriceMap(t2, r)));
    }
    if ByName(r) {
      df.SetColumn(Found, NameFill(df.Snapshot(), NamePriceMap(t2, r)));
    }
  }

  /** Lines 143-152 in place. */
  method RepairUnitsInPlace(df: DataFrame) returns (unitLabel: string)
    requires df.Valid()
    modifies df
    ensures df.Valid()
    ensures var u := RepairUnits(old(df.Snapshot())); df.Snapshot() == u.table && unitLabel == u.unitLabel
  {
    var found := FindLabel(df.labels, UnitKeywords);
    unitLabel := if Truthy(found) then found.value else DefaultUnit;
    if !Truthy(found) && DefaultUnit !in df.labels {
      df.SetColumn(DefaultUnit, Zeros(|df.rows|));
    }
    df.SetColumn(unitLabel, RepairedUnits(df.Snapshot(), unitLabel));
  }

  /** Lines 154-163 in place. */
  method ApplyTotalsInPlace(df: DataFrame, unitLabel: string) returns (totalLabel: string)
    requires df.Valid()
    modifies df
    ensures df.Valid()
    ensures var s := ApplyTotals(old(df.Snapshot()), unitLabel); df.Snapshot() == s.table && totalLabel == s.totalLabel
  {
    var qty := FindLabel(df.labels, QtyKeywords);
    var total := FindLabel(df.labels, TotalKeywords);
    totalLabel := if Truthy(total) then total.value else DefaultTotal;
    df.SetColumn(totalLabel, Totals(df.Snapshot(), unitLabel, qty));
  }

  /** Lines 165-168 in place: the loop over the working labels. */
  method DropWorkingColumns(df: DataFrame)
    requires df.Valid()
    modifies df
    ensures df.Valid() && df.Snapshot() == WithoutColumns(old(df.Snapshot()), WorkingLabels)
  {
    var k := 0;
    while k < |WorkingLabels|
      invariant 0 <= k <= |WorkingLabels|
      invariant df.Valid() && df.Snapshot() == WithoutColumns(old(df.Snapshot()), WorkingLabels[..k])
    {
      assert WorkingLabels[..k + 1][..k] == WorkingLabels[..k];
      df.DropColumn(WorkingLabels[k]);
      k := k + 1;
    }
    assert WorkingLabels[..k] == WorkingLabels;
  }

  /** Lines 122-168 on `df1` in place; returns the unit and total labels the export step needs. */
  method Enrich(df1: DataFrame, t2: Table) returns (unitLabel: string, totalLabel: string)
    requires df1.Valid() && Feasible(ResolveRoles(df1.Snapshot(), t2))
    modifies df1
    ensures df1.Valid()
    ensures var e := Enriched(old(df1.Snapshot()), t2);
      df1.Snapshot() == e.table && unitLabel == e.unitLabel && totalLabel == e.totalLabel
  {
    var r := ResolveRoles(df1.Snapshot(), t2);
    AddKeys(df1, r);
    AddFoundPrices(df1, t2, r);
    unitLabel := RepairUnitsInPlace(df1);
    totalLabel := ApplyTotalsInPlace(df1, unitLabel);
    DropWorkingColumns(df1);
  }
}
