/**
 * What the enrichment guarantees about table 1, stated against the original
 * tables: which labels and columns it ends with, where each row's price
 * comes from, and the unit and total values each row ends up with.
 */
module EnrichmentProperties {
  import opened Wrappers
  import opened Strings
  import opened Cells
  import opened Tables
  import opened ColumnResolver
  import opened Normalizer
  import opened PriceEnricher

  /** Table 1 does not already carry one of the working labels. */
  predicate NoWorkingLabels(t: Table) {
    TempCode !in t.labels && TempName !in t.labels && Found !in t.labels
  }

  // ---------------------------------------------------------------- keyword facts about the working labels

  /** The working labels and the two default labels are pairwise different. */
  lemma LabelsDiffer()
    ensures TempCode != TempName && TempCode != Found && TempName != Found
    ensures DefaultUnit != TempCode && DefaultUnit != TempName && DefaultUnit != Found
  {
    assert TempCode[1] == 't' && Found[1] == '_' && DefaultUnit[0] == 'V';
    assert TempCode[6] == 'c' && TempName[6] == 'n';
  }

  lemma AbsentKeyword(name: string, kw: string, idx: nat, c: char)
    requires 'a' <= c <= 'z' && idx < |kw| && LowerChar(kw[idx]) == c
    requires c !in name && ((c as int - 32) as char) !in name
    ensures !Contains(Lower(name), Lower(kw))
  {
    LowerAbsent(name, c);
    assert Lower(kw)[idx] == c;
    AbsentChar(Lower(name), Lower(kw), c);
  }

  /** No working label, nor the default unit label, looks like a unit column; the unit keywords all contain a 'u'. */
  lemma NoUnitKeyword(name: string)
    requires 'u' !in name && 'U' !in name
    ensures !MatchesAny(name, LowerAll(UnitKeywords))
  {
    AbsentKeyword(name, UnitKeywords[0], 6, 'u');
    AbsentKeyword(name, UnitKeywords[1], 6, 'u');
    AbsentKeyword(name, UnitKeywords[2], 7, 'u');
    NotMatching(name, UnitKeywords);
  }

  lemma WorkingNotUnit()
    ensures forall w | w in WorkingLabels :: !MatchesAny(w, LowerAll(UnitKeywords))
  {
    NoUnitKeyword(TempCode);
    NoUnitKeyword(TempName);
    NoUnitKeyword(Found);
  }

  lemma KeysNotQuantity()
    ensures !MatchesAny(TempCode, LowerAll(QtyKeywords)) && !MatchesAny(TempName, LowerAll(QtyKeywords))
  {
    AbsentKeyword(TempCode, QtyKeywords[0], 1, 'a');
    AbsentKeyword(TempCode, QtyKeywords[1], 1, 'a');
    NotMatching(TempCode, QtyKeywords);
    AbsentKeyword(TempName, QtyKeywords[0], 0, 'c');
    AbsentKeyword(TempName, QtyKeywords[1], 0, 'c');
    NotMatching(TempName, QtyKeywords);
  }

  lemma FoundNotQuantity()
    ensures !MatchesAny(Found, LowerAll(QtyKeywords))
  {
    AbsentKeyword(Found, QtyKeywords[0], 4, 'i');
    FoundNotCant();
    NotMatching(Found, QtyKeywords);
  }

  lemma DefaultUnitNotQuantity()
    ensures !MatchesAny(DefaultUnit, LowerAll(QtyKeywords))
  {
    AbsentKeyword(DefaultUnit, QtyKeywords[0], 0, 'c');
    AbsentKeyword(DefaultUnit, QtyKeywords[1], 0, 'c');
    NotMatching(DefaultUnit, QtyKeywords);
  }

  /** None of the columns that enrichment may add looks like a quantity column. */
  lemma AddedNotQuantity()
    ensures forall w | w in WorkingLabels + [DefaultUnit] :: !MatchesAny(w, LowerAll(QtyKeywords))
  {
    KeysNotQuantity();
    FoundNotQuantity();
    DefaultUnitNotQuantity();
  }

  /** "cant" does not occur in "__valor_encontrado__": its only 'c' is followed by 'o'. */
  lemma FoundNotCant()
    ensures !Contains(Lower(Found), Lower(QtyKeywords[1]))
  {
    var a, b := "__Valor_En", "ntrado__";
    assert Found == a + ['c', 'o'] + b;
    LowerAppend(a + ['c', 'o'], b);
    LowerAppend(a, ['c', 'o']);
    assert Lower(['c', 'o']) == ['c', 'o'];
    LowerAbsent(a, 'c');
    LowerAbsent(b, 'c');
    assert Lower(QtyKeywords[1]) == "cant";
    OnlyStartFails(Lower(a), 'c', 'o', Lower(b), "cant");
  }

  lemma CodeKeyNotTotal()
    ensures !MatchesAny(TempCode, LowerAll(TotalKeywords))
  {
    AbsentKeyword(TempCode, TotalKeywords[0], 0, 'v');
    AbsentKeyword(TempCode, TotalKeywords[1], 4, 'l');
    AbsentKeyword(TempCode, TotalKeywords[2], 0, 'v');
    AbsentKeyword(TempCode, TotalKeywords[3], 0, 'n');
    AbsentKeyword(TempCode, TotalKeywords[4], 0, 'v');
    NotMatching(TempCode, TotalKeywords);
  }

  lemma NameKeyNotTotal()
    ensures !MatchesAny(TempName, LowerAll(TotalKeywords))
  {
    AbsentKeyword(TempName, TotalKeywords[0], 0, 'v');
    AbsentKeyword(TempName, TotalKeywords[1], 4, 'l');
    AbsentKeyword(TempName, TotalKeywords[2], 0, 'v');
    AbsentKeyword(TempName, TotalKeywords[3], 3, 'o');
    AbsentKeyword(TempName, TotalKeywords[4], 0, 'v');
    NotMatching(TempName, TotalKeywords);
  }

  /** The two key columns do not look like total columns. */
  lemma KeysNotTotal()
    ensures !MatchesAny(TempCode, LowerAll(TotalKeywords)) && !MatchesAny(TempName, LowerAll(TotalKeywords))
  {
    CodeKeyNotTotal();
    NameKeyNotTotal();
  }

  /** "__Valor_Encontrado__" contains "valor", so it is a total column for `find_col`. */
  lemma FoundLooksLikeTotal()
    ensures MatchesAny(Found, LowerAll(TotalKeywords))
  {
    var l := Lower(Found);
    assert LowerAll(TotalKeywords)[4] == "valor";
    LowerSlice(Found, 2, 7);
    assert Found[2..7] == "Valor";
    assert Lower("Valor") == "valor";
    ContainsAt(l, "valor", 2);
  }

  // ---------------------------------------------------------------- reference definitions on the original tables

  /** The working key columns that enrichment adds to table 1, in order. */
  function KeyLabels(r: Roles): seq<string> {
    (if Truthy(r.code1) then [TempCode] else []) + (if Truthy(r.name1) then [TempName] else [])
  }

  /**
   * The price a row of table 1 finds: the code price map's entry for its
   * trimmed code when matching by code, and otherwise, when matching by name,
   * the name price map's entry for its trimmed lower-cased name.
   */
  function FoundPrice(t1: Table, t2: Table, row: seq<Cell>): Cell
    requires Truthy(ResolveRoles(t1, t2).unit2)
  {
    var r := ResolveRoles(t1, t2);
    var byCode := if ByCode(r) then Lookup(CodePriceMap(t2, r), CodeKey(Get(t1.labels, row, r.code1.value))) else Missing;
    if byCode.Missing? && ByName(r) then Lookup(NamePriceMap(t2, r), NameKey(Get(t1.labels, row, r.name1.value)))
    else byCode
  }

  /** The unit column: the first unit-keyword column of table 1, else "Valor Unitario". */
  function UnitLabelOf(t1: Table): string {
    var found := FindLabel(t1.labels, UnitKeywords);
    if Truthy(found) then found.value else DefaultUnit
  }

  /** "Valor Unitario" is appended when table 1 has no unit column and no column of that name. */
  function AddedUnitLabels(t1: Table): seq<string> {
    if !Truthy(FindLabel(t1.labels, UnitKeywords)) && DefaultUnit !in t1.labels then [DefaultUnit] else []
  }

  /**
   * The total column: the first total-keyword column of table 1, else the
   * working column `__Valor_Encontrado__`; the "Valor" default is never used.
   */
  function TotalLabelOf(t1: Table): string {
    var found := FindLabel(t1.labels, TotalKeywords);
    if Truthy(found) then found.value else Found
  }

  function ExpectedUnit(t1: Table, t2: Table, row: seq<Cell>): int
    requires Truthy(ResolveRoles(t1, t2).unit2)
  {
    ResolvedUnit(FoundPrice(t1, t2, row), Get(t1.labels, row, UnitLabelOf(t1)))
  }

  /** The quantity: the coerced quantity cell, or 1; when the quantity column is the unit column, the repaired unit. */
  function ExpectedQuantity(t1: Table, t2: Table, row: seq<Cell>): int
    requires Truthy(ResolveRoles(t1, t2).unit2)
  {
    var q := FindLabel(t1.labels, QtyKeywords);
    if !Truthy(q) then 1
    else if q.value == UnitLabelOf(t1) then ExpectedUnit(t1, t2, row)
    else AsNumber(Get(t1.labels, row, q.value)).GetOr(1)
  }

  // ---------------------------------------------------------------- the stages against table 1

  lemma KeysLabels(t1: Table, t2: Table)
    requires WellFormed(t1) && NoWorkingLabels(t1)
    ensures WithKeys(t1, ResolveRoles(t1, t2)).labels == t1.labels + KeyLabels(ResolveRoles(t1, t2))
  {
    KeysLabelsFor(t1, ResolveRoles(t1, t2));
  }

  /** The key columns of any roles come after the labels of table 1. */
  lemma KeysLabelsFor(t: Table, r: Roles)
    requires WellFormed(t) && NoWorkingLabels(t)
    ensures WithKeys(t, r).labels == t.labels + KeyLabels(r)
  {
    var a := if Truthy(r.code1) then WithColumn(t, TempCode, CodeKeys(t, r.code1.value)) else t;
    LabelsDiffer();
    assert a.labels == t.labels + (if Truthy(r.code1) then [TempCode] else []);
    assert TempName !in a.labels;
  }

  /** After line 125: the key columns hold the keys, every other label reads as before. */
  lemma KeysRow(t1: Table, t2: Table, i: nat, m: string)
    requires WellFormed(t1) && NoWorkingLabels(t1) && i < |t1.rows|
    ensures var r := ResolveRoles(t1, t2); var k := WithKeys(t1, r);
      Get(k.labels, k.rows[i], m) ==
        if m == TempCode && Truthy(r.code1) then Text(CodeKey(Get(t1.labels, t1.rows[i], r.code1.value)))
        else if m == TempName && Truthy(r.name1) then Text(NameKey(Get(t1.labels, t1.rows[i], r.name1.value)))
        else Get(t1.labels, t1.rows[i], m)
  {
    var r := ResolveRoles(t1, t2);
    var a := if Truthy(r.code1) then WithColumn(t1, TempCode, CodeKeys(t1, r.code1.value)) else t1;
    if Truthy(r.code1) {
      GetWithColumn(t1, TempCode, CodeKeys(t1, r.code1.value), i, m);
    }
    if Truthy(r.name1) {
      assert r.name1.value != TempCode;
      if Truthy(r.code1) {
        GetWithColumn(t1, TempCode, CodeKeys(t1, r.code1.value), i, r.name1.value);
      }
      GetWithColumn(a, TempName, NameKeys(a, r.name1.value), i, m);
    }
  }

  lemma FoundLabels(t1: Table, t2: Table)
    requires WellFormed(t1) && NoWorkingLabels(t1) && Truthy(ResolveRoles(t1, t2).unit2)
    ensures var r := ResolveRoles(t1, t2);
      WithFoundPrices(WithKeys(t1, r), t2, r).labels == t1.labels + KeyLabels(r) + [Found]
  {
    KeysLabels(t1, t2);
  }

  /** Lines 128-141 on any table with key columns: the found column holds the code price, else the name price. */
  lemma FoundStep(k: Table, t2: Table, r: Roles, i: nat, m: string, codeKey: string, nameKey: string)
    requires WellFormed(k) && Truthy(r.unit2) && i < |k.rows|
    requires ByCode(r) ==> Get(k.labels, k.rows[i], TempCode) == Text(codeKey)
    requires ByName(r) ==> Get(k.labels, k.rows[i], TempName) == Text(nameKey)
    ensures var f := WithFoundPrices(k, t2, r);
      var byCode := if ByCode(r) then Lookup(CodePriceMap(t2, r), codeKey) else Missing;
      Get(f.labels, f.rows[i], m) ==
        if m != Found then Get(k.labels, k.rows[i], m)
        else if byCode.Missing? && ByName(r) then Lookup(NamePriceMap(t2, r), nameKey)
        else byCode
  {
    LabelsDiffer();
    var a := WithColumn(k, Found, Blank(|k.rows|));
    var b := if ByCode(r) then WithColumn(a, Found, CodeMatches(a, CodePriceMap(t2, r))) else a;
    GetWithColumn(k, Found, Blank(|k.rows|), i, m);
    GetWithColumn(k, Found, Blank(|k.rows|), i, Found);
    if ByCode(r) {
      GetWithColumn(k, Found, Blank(|k.rows|), i, TempCode);
      GetWithColumn(a, Found, CodeMatches(a, CodePriceMap(t2, r)), i, m);
      GetWithColumn(a, Found, CodeMatches(a, CodePriceMap(t2, r)), i, Found);
    }
    if ByName(r) {
      GetWithColumn(k, Found, Blank(|k.rows|), i, TempName);
      if ByCode(r) {
        GetWithColumn(a, Found, CodeMatches(a, CodePriceMap(t2, r)), i, TempName);
      }
      GetWithColumn(b, Found, NameFill(b, NamePriceMap(t2, r)), i, m);
    }
  }

  /** After line 141: the found-price column holds `FoundPrice`, every other label reads as before. */
  lemma FoundRow(t1: Table, t2: Table, i: nat, m: string)
    requires WellFormed(t1) && NoWorkingLabels(t1) && i < |t1.rows| && Truthy(ResolveRoles(t1, t2).unit2)
    ensures var r := ResolveRoles(t1, t2); var k := WithKeys(t1, r); var f := WithFoundPrices(k, t2, r);
      Get(f.labels, f.rows[i], m) == if m == Found then FoundPrice(t1, t2, t1.rows[i]) else Get(k.labels, k.rows[i], m)
  {
    var r := ResolveRoles(t1, t2);
    var k := WithKeys(t1, r);
    var row := t1.rows[i];
    var ck := if Truthy(r.code1) then CodeKey(Get(t1.labels, row, r.code1.value)) else "";
    var nk := if Truthy(r.name1) then NameKey(Get(t1.labels, row, r.name1.value)) else "";
    KeysRow(t1, t2, i, TempCode);
    KeysRow(t1, t2, i, TempName);
    FoundStep(k, t2, r, i, m, ck, nk);
  }

  /** The working columns never change which column `find_col` picks for the unit keywords. */
  lemma UnitSearchUnchanged(t1: Table, t2: Table)
    ensures FindLabel(t1.labels + KeyLabels(ResolveRoles(t1, t2)) + [Found], UnitKeywords) == FindLabel(t1.labels, UnitKeywords)
  {
    UnitSearchUnchangedFor(t1.labels, ResolveRoles(t1, t2));
  }

  lemma UnitSearchUnchangedFor(labels: seq<string>, r: Roles)
    ensures FindLabel(labels + KeyLabels(r) + [Found], UnitKeywords) == FindLabel(labels, UnitKeywords)
  {
    var extra := KeyLabels(r) + [Found];
    WorkingNotUnit();
    assert forall k | 0 <= k < |extra| :: extra[k] in WorkingLabels;
    assert labels + KeyLabels(r) + [Found] == labels + extra;
    FindLabelIgnoresUnmatched(labels, extra, UnitKeywords);
  }

  lemma UnitLabels(t1: Table, t2: Table)
    requires WellFormed(t1) && NoWorkingLabels(t1) && Truthy(ResolveRoles(t1, t2).unit2)
    ensures var r := ResolveRoles(t1, t2); var u := RepairUnits(WithFoundPrices(WithKeys(t1, r), t2, r));
      u.unitLabel == UnitLabelOf(t1)
      && u.table.labels == t1.labels + KeyLabels(r) + [Found] + AddedUnitLabels(t1)
  {
    var r := ResolveRoles(t1, t2);
    FoundLabels(t1, t2);
    UnitSearchUnchanged(t1, t2);
    var f := WithFoundPrices(WithKeys(t1, r), t2, r);
    assert DefaultUnit in f.labels <==> DefaultUnit in t1.labels;
  }

  /** Lines 143-152 at one row of any table: the unit column holds the resolved unit, the rest reads as before. */
  lemma RepairUnitsRow(t: Table, i: nat, m: string)
    requires WellFormed(t) && i < |t.rows|
    ensures var u := RepairUnits(t);
      Get(u.table.labels, u.table.rows[i], m) ==
        if m == u.unitLabel then Num(ResolvedUnit(Get(t.labels, t.rows[i], Found), Get(t.labels, t.rows[i], u.unitLabel)))
        else Get(t.labels, t.rows[i], m)
  {
    var found := FindLabel(t.labels, UnitKeywords);
    var col := if Truthy(found) then found.value else DefaultUnit;
    var added := !Truthy(found) && DefaultUnit !in t.labels;
    var a := if added then WithColumn(t, DefaultUnit, Zeros(|t.rows|)) else t;
    if added {
      assert Found != DefaultUnit;
      GetWithColumn(t, DefaultUnit, Zeros(|t.rows|), i, m);
      GetWithColumn(t, DefaultUnit, Zeros(|t.rows|), i, Found);
      GetWithColumn(t, DefaultUnit, Zeros(|t.rows|), i, col);
      LookupPresent(t.labels, t.rows[i], DefaultUnit);
    }
    GetWithColumn(a, col, RepairedUnits(a, col), i, m);
  }

  /** After line 152: the unit column holds the resolved unit, every other label reads as before. */
  lemma UnitRow(t1: Table, t2: Table, i: nat, m: string)
    requires WellFormed(t1) && NoWorkingLabels(t1) && i < |t1.rows| && Truthy(ResolveRoles(t1, t2).unit2)
    ensures var r := ResolveRoles(t1, t2); var f := WithFoundPrices(WithKeys(t1, r), t2, r); var u := RepairUnits(f);
      Get(u.table.labels, u.table.rows[i], m) ==
        if m == UnitLabelOf(t1) then Num(ExpectedUnit(t1, t2, t1.rows[i])) else Get(f.labels, f.rows[i], m)
  {
    var r := ResolveRoles(t1, t2);
    var f := WithFoundPrices(WithKeys(t1, r), t2, r);
    UnitLabels(t1, t2);
    var ul := UnitLabelOf(t1);
    assert ul != Found && ul != TempCode && ul != TempName;
    FoundRow(t1, t2, i, Found);
    FoundRow(t1, t2, i, ul);
    KeysRow(t1, t2, i, ul);
    RepairUnitsRow(f, i, m);
  }

  /** The header the unit and total searches of lines 143, 154 and 159 see, written over table 1's header. */
  function UnitStepLabels(t1: Table, t2: Table): seq<string> {
    t1.labels + KeyLabels(ResolveRoles(t1, t2)) + [Found] + AddedUnitLabels(t1)
  }

  /** The columns enrichment may add before line 154, as they follow table 1's header. */
  function Added(c: bool, n: bool, d: bool): seq<string> {
    KeyPart(c, n) + [Found] + (if d then [DefaultUnit] else [])
  }

  /** The key columns among them. */
  function KeyPart(c: bool, n: bool): seq<string> {
    (if c then [TempCode] else []) + (if n then [TempName] else [])
  }

  lemma NotQuantityLabel(w: string)
    requires w == TempCode || w == TempName || w == Found || w == DefaultUnit
    ensures !MatchesAny(w, LowerAll(QtyKeywords))
  {
    if w == TempCode || w == TempName {
      KeysNotQuantity();
    } else if w == Found {
      FoundNotQuantity();
    } else {
      DefaultUnitNotQuantity();
    }
  }

  lemma QtySearchOver(labels: seq<string>, c: bool, n: bool, d: bool)
    ensures FindLabel(labels + Added(c, n, d), QtyKeywords) == FindLabel(labels, QtyKeywords)
  {
    var extra := Added(c, n, d);
    forall k | 0 <= k < |extra|
      ensures !MatchesAny(extra[k], LowerAll(QtyKeywords))
    {
      NotQuantityLabel(extra[k]);
    }
    FindLabelIgnoresUnmatched(labels, extra, QtyKeywords);
  }

  /** Among the added columns the first that looks like a total column is the found-price column. */
  lemma FoundFirstTotalInAdded(c: bool, n: bool, d: bool)
    ensures FindColumn(Added(c, n, d), LowerAll(TotalKeywords)) == Some(|KeyPart(c, n)|)
  {
    var kl := KeyPart(c, n);
    var extra := Added(c, n, d);
    KeysNotTotal();
    FoundLooksLikeTotal();
    assert extra[|kl|] == Found;
    assert forall k | 0 <= k < |kl| :: extra[k] == kl[k];
    assert forall k | 0 <= k < |kl| :: kl[k] == TempCode || kl[k] == TempName;
    FindColumnUnique(extra, LowerAll(TotalKeywords), |kl|);
  }

  lemma TotalSearchOver(labels: seq<string>, c: bool, n: bool, d: bool)
    ensures var found := FindLabel(labels, TotalKeywords);
      FindLabel(labels + Added(c, n, d), TotalKeywords) == Some(if Truthy(found) then found.value else Found)
  {
    var extra := Added(c, n, d);
    FindColumnAppend(labels, extra, LowerAll(TotalKeywords));
    FoundFirstTotalInAdded(c, n, d);
    assert extra[|KeyPart(c, n)|] == Found;
    FoundLabelNonEmpty(labels, TotalKeywords);
  }

  lemma AddedSplit(labels: seq<string>, kl: seq<string>, c: bool, n: bool, d: bool, du: seq<string>)
    requires kl == (if c then [TempCode] else []) + (if n then [TempName] else [])
    requires du == (if d then [DefaultUnit] else [])
    ensures labels + kl + [Found] + du == labels + Added(c, n, d)
  {
  }

  lemma UnitStepAdded(t1: Table, t2: Table)
    ensures var r := ResolveRoles(t1, t2);
      UnitStepLabels(t1, t2) == t1.labels + Added(Truthy(r.code1), Truthy(r.name1), AddedUnitLabels(t1) != [])
  {
    var r := ResolveRoles(t1, t2);
    AddedSplit(t1.labels, KeyLabels(r), Truthy(r.code1), Truthy(r.name1), AddedUnitLabels(t1) != [], AddedUnitLabels(t1));
  }

  /** Line 154 finds the quantity column of table 1: no added column looks like one. */
  lemma QtySearchUnchanged(t1: Table, t2: Table)
    ensures FindLabel(UnitStepLabels(t1, t2), QtyKeywords) == FindLabel(t1.labels, QtyKeywords)
  {
    var r := ResolveRoles(t1, t2);
    UnitStepAdded(t1, t2);
    QtySearchOver(t1.labels, Truthy(r.code1), Truthy(r.name1), AddedUnitLabels(t1) != []);
  }

  /**
   * Line 159 finds the total column of table 1 if there is one, and
   * otherwise `__Valor_Encontrado__`, which precedes any column added later.
   */
  lemma TotalSearchFindsFound(t1: Table, t2: Table)
    ensures FindLabel(UnitStepLabels(t1, t2), TotalKeywords) == Some(TotalLabelOf(t1))
  {
    var r := ResolveRoles(t1, t2);
    UnitStepAdded(t1, t2);
    TotalSearchOver(t1.labels, Truthy(r.code1), Truthy(r.name1), AddedUnitLabels(t1) != []);
  }

  lemma TotalLabels(t1: Table, t2: Table)
    requires WellFormed(t1) && NoWorkingLabels(t1) && Truthy(ResolveRoles(t1, t2).unit2)
    ensures var r := ResolveRoles(t1, t2); var u := RepairUnits(WithFoundPrices(WithKeys(t1, r), t2, r));
      var s := ApplyTotals(u.table, u.unitLabel);
      s.totalLabel == TotalLabelOf(t1) && s.table.labels == UnitStepLabels(t1, t2)
  {
    UnitLabels(t1, t2);
    TotalSearchFindsFound(t1, t2);
  }

  /** The quantity line 156 reads for a row is the one table 1 gives it. */
  lemma QuantityRow(t1: Table, t2: Table, i: nat)
    requires WellFormed(t1) && NoWorkingLabels(t1) && i < |t1.rows| && Truthy(ResolveRoles(t1, t2).unit2)
    ensures var r := ResolveRoles(t1, t2); var u := RepairUnits(WithFoundPrices(WithKeys(t1, r), t2, r));
      Quantity(u.table, FindLabel(u.table.labels, QtyKeywords), u.table.rows[i]) == ExpectedQuantity(t1, t2, t1.rows[i])
  {
    UnitLabels(t1, t2);
    QtySearchUnchanged(t1, t2);
    var q := FindLabel(t1.labels, QtyKeywords);
    if Truthy(q) {
      UnitRow(t1, t2, i, q.value);
      assert q.value in t1.labels;
      FoundRow(t1, t2, i, q.value);
      KeysRow(t1, t2, i, q.value);
    }
  }

  /** After line 163: the total column holds unit times quantity, every other label reads as before. */
  lemma TotalRow(t1: Table, t2: Table, i: nat, m: string)
    requires WellFormed(t1) && NoWorkingLabels(t1) && i < |t1.rows| && Truthy(ResolveRoles(t1, t2).unit2)
    ensures var r := ResolveRoles(t1, t2); var u := RepairUnits(WithFoundPrices(WithKeys(t1, r), t2, r));
      var s := ApplyTotals(u.table, u.unitLabel);
      Get(s.table.labels, s.table.rows[i], m) ==
        if m == TotalLabelOf(t1) then Num(ExpectedUnit(t1, t2, t1.rows[i]) * ExpectedQuantity(t1, t2, t1.rows[i]))
        else Get(u.table.labels, u.table.rows[i], m)
  {
    var r := ResolveRoles(t1, t2);
    var u := RepairUnits(WithFoundPrices(WithKeys(t1, r), t2, r));
    UnitLabels(t1, t2);
    TotalSearchFindsFound(t1, t2);
    var q := FindLabel(u.table.labels, QtyKeywords);
    UnitRow(t1, t2, i, u.unitLabel);
    QuantityRow(t1, t2, i);
    GetWithColumn(u.table, TotalLabelOf(t1), Totals(u.table, u.unitLabel, q), i, m);
  }

  // ---------------------------------------------------------------- the drop of lines 165-168

  lemma {:induction false} DropLabelsConcat(a: seq<string>, b: seq<string>, ds: seq<string>)
    ensures DropLabels(a + b, ds) == DropLabels(a, ds) + DropLabels(b, ds)
    decreases |ds|
  {
    if ds != [] {
      DropLabelsConcat(a, b, ds[..|ds| - 1]);
      DropLabelConcat(DropLabels(a, ds[..|ds| - 1]), DropLabels(b, ds[..|ds| - 1]), ds[|ds| - 1]);
    }
  }

  lemma {:induction false} DropLabelsAbsent(labels: seq<string>, ds: seq<string>)
    requires forall d | d in ds :: d !in labels
    ensures DropLabels(labels, ds) == labels
    decreases |ds|
  {
    if ds != [] {
      assert forall d | d in ds[..|ds| - 1] :: d in ds;
      DropLabelsAbsent(labels, ds[..|ds| - 1]);
      assert ds[|ds| - 1] in ds;
      DropLabelAbsent(labels, ds[|ds| - 1]);
    }
  }

  lemma DropOptional(b: bool, x: string, d: string)
    ensures DropLabel(if b then [x] else [], d) == if b && x != d then [x] else []
  {
    if b {
      assert [x][1..] == [];
    }
  }

  lemma DropFour(a: seq<string>, b: seq<string>, c: seq<string>, e: seq<string>, d: string)
    ensures DropLabel(a + b + c + e, d) == DropLabel(a, d) + DropLabel(b, d) + DropLabel(c, d) + DropLabel(e, d)
  {
    DropLabelConcat(a + b + c, e, d);
    DropLabelConcat(a + b, c, d);
    DropLabelConcat(a, b, d);
  }

  lemma DropCodeKey(c: bool, n: bool, d: bool)
    ensures DropLabel(Added(c, n, d), TempCode) == (if n then [TempName] else []) + [Found] + (if d then [DefaultUnit] else [])
  {
    LabelsDiffer();
    DropFour(if c then [TempCode] else [], if n then [TempName] else [], [Found], if d then [DefaultUnit] else [], TempCode);
    DropOptional(c, TempCode, TempCode);
    DropOptional(n, TempName, TempCode);
    DropOptional(true, Found, TempCode);
    DropOptional(d, DefaultUnit, TempCode);
  }

  lemma DropNameKey(n: bool, d: bool)
    ensures DropLabel((if n then [TempName] else []) + [Found] + (if d then [DefaultUnit] else []), TempName)
      == [Found] + (if d then [DefaultUnit] else [])
  {
    LabelsDiffer();
    DropFour([], if n then [TempName] else [], [Found], if d then [DefaultUnit] else [], TempName);
    assert [] + (if n then [TempName] else []) + [Found] + (if d then [DefaultUnit] else [])
      == (if n then [TempName] else []) + [Found] + (if d then [DefaultUnit] else []);
    DropOptional(n, TempName, TempName);
    DropOptional(true, Found, TempName);
    DropOptional(d, DefaultUnit, TempName);
  }

  lemma DropFoundLabel(d: bool)
    ensures DropLabel([Found] + (if d then [DefaultUnit] else []), Found) == if d then [DefaultUnit] else []
  {
    LabelsDiffer();
    DropLabelConcat([Found], if d then [DefaultUnit] else [], Found);
    DropOptional(true, Found, Found);
    DropOptional(d, DefaultUnit, Found);
  }

  /** Of the added columns only "Valor Unitario" survives the drop. */
  lemma DropAdded(c: bool, n: bool, d: bool)
    ensures DropLabels(Added(c, n, d), WorkingLabels) == if d then [DefaultUnit] else []
  {
    var ds := WorkingLabels;
    assert ds[..0] == [] && ds[..1] == [TempCode] && ds[..2] == [TempCode, TempName] && ds[..3] == ds;
    assert [TempCode][..0] == [] && [TempCode, TempName][..1] == [TempCode];
    DropCodeKey(c, n, d);
    DropNameKey(n, d);
    DropFoundLabel(d);
    assert DropLabels(Added(c, n, d), ds[..1]) == DropLabel(Added(c, n, d), TempCode);
  }

  lemma DropLabelsOfUnitStep(t1: Table, t2: Table)
    requires NoWorkingLabels(t1)
    ensures DropLabels(UnitStepLabels(t1, t2), WorkingLabels) == t1.labels + AddedUnitLabels(t1)
  {
    var r := ResolveRoles(t1, t2);
    var d := AddedUnitLabels(t1) != [];
    UnitStepAdded(t1, t2);
    DropLabelsConcat(t1.labels, Added(Truthy(r.code1), Truthy(r.name1), d), WorkingLabels);
    DropLabelsAbsent(t1.labels, WorkingLabels);
    DropAdded(Truthy(r.code1), Truthy(r.name1), d);
  }

  /**
   * Lines 119-168 as a whole: the enriched table keeps table 1's header,
   * followed by "Valor Unitario" when it had no unit column; the unit and
   * total labels are those the searches pick on table 1.
   */
  lemma EnrichedLabels(t1: Table, t2: Table)
    requires WellFormed(t1) && NoWorkingLabels(t1) && Feasible(ResolveRoles(t1, t2))
    ensures var e := Enriched(t1, t2);
      e.table.labels == t1.labels + AddedUnitLabels(t1)
      && e.unitLabel == UnitLabelOf(t1) && e.totalLabel == TotalLabelOf(t1)
  {
    UnitLabels(t1, t2);
    TotalLabels(t1, t2);
    DropLabelsOfUnitStep(t1, t2);
  }

  /**
   * Every cell of an enriched row against table 1: the total column holds
   * unit times quantity (and wins when it is also the unit column), the unit
   * column the resolved unit, the working columns are gone and every other
   * column is table 1's.
   */
  lemma EnrichedRow(t1: Table, t2: Table, i: nat, m: string)
    requires WellFormed(t1) && NoWorkingLabels(t1) && i < |t1.rows| && Feasible(ResolveRoles(t1, t2))
    ensures var e := Enriched(t1, t2); var row := t1.rows[i];
      Get(e.table.labels, e.table.rows[i], m) ==
        if m in WorkingLabels then Missing
        else if m == TotalLabelOf(t1) then Num(ExpectedUnit(t1, t2, row) * ExpectedQuantity(t1, t2, row))
        else if m == UnitLabelOf(t1) then Num(ExpectedUnit(t1, t2, row))
        else Get(t1.labels, row, m)
  {
    var r := ResolveRoles(t1, t2);
    var e := Enriched(t1, t2);
    if m in WorkingLabels {
      assert m !in e.table.labels;
      LookupPresent(e.table.labels, e.table.rows[i], m);
    } else {
      TotalRow(t1, t2, i, m);
      UnitRow(t1, t2, i, m);
      FoundRow(t1, t2, i, m);
      KeysRow(t1, t2, i, m);
    }
  }

  /**
   * Without a total column the total goes to `__Valor_Encontrado__`, which
   * line 167 drops: no total survives, and the "Valor" default of line 159
   * is never chosen.
   */
  lemma TotalLost(t1: Table, t2: Table)
    requires WellFormed(t1) && NoWorkingLabels(t1) && Feasible(ResolveRoles(t1, t2))
    requires !Truthy(FindLabel(t1.labels, TotalKeywords))
    ensures var e := Enriched(t1, t2);
      e.totalLabel == Found && e.totalLabel !in e.table.labels && e.totalLabel != DefaultTotal
  {
    EnrichedLabels(t1, t2);
  }

  /** When the unit column is also the first total-keyword column, it ends up holding the total. */
  lemma UnitOverwrittenByTotal(t1: Table, t2: Table, i: nat)
    requires WellFormed(t1) && NoWorkingLabels(t1) && i < |t1.rows| && Feasible(ResolveRoles(t1, t2))
    requires TotalLabelOf(t1) == UnitLabelOf(t1)
    ensures var e := Enriched(t1, t2); var row := t1.rows[i];
      Get(e.table.labels, e.table.rows[i], e.unitLabel) == Num(ExpectedUnit(t1, t2, row) * ExpectedQuantity(t1, t2, row))
  {
    EnrichedLabels(t1, t2);
    EnrichedRow(t1, t2, i, UnitLabelOf(t1));
    WorkingNotUnit();
  }

  // ---------------------------------------------------------------- where a found price comes from

  /** Some priced row of table 2 carries the key. */
  predicate Priced(keys: seq<string>, prices: seq<Cell>, k: string)
    requires |keys| == |prices|
  {
    exists j | 0 <= j < |keys| :: keys[j] == k && !prices[j].Missing?
  }

  /** Matching by code: the first priced reference row with the row's trimmed code supplies the price. */
  lemma FoundPriceByCode(t1: Table, t2: Table, row: seq<Cell>, j: nat)
    requires var r := ResolveRoles(t1, t2);
      (Truthy(r.unit2) && ByCode(r)
      && FirstPriced(RefCodeKeys(t2, r), RefPrices(t2, r), CodeKey(Get(t1.labels, row, r.code1.value)), j))
    ensures FoundPrice(t1, t2, row) == RefPrices(t2, ResolveRoles(t1, t2))[j]
  {
    var r := ResolveRoles(t1, t2);
    PriceMapFirst(RefCodeKeys(t2, r), RefPrices(t2, r), CodeKey(Get(t1.labels, row, r.code1.value)), j);
  }

  /** A row whose code finds no price falls back on the first priced reference row with its name. */
  lemma FoundPriceByName(t1: Table, t2: Table, row: seq<Cell>, j: nat)
    requires var r := ResolveRoles(t1, t2);
      (Truthy(r.unit2) && ByName(r)
      && (ByCode(r) ==> !Priced(RefCodeKeys(t2, r), RefPrices(t2, r), CodeKey(Get(t1.labels, row, r.code1.value))))
      && FirstPriced(RefNameKeys(t2, r), RefPrices(t2, r), NameKey(Get(t1.labels, row, r.name1.value)), j))
    ensures FoundPrice(t1, t2, row) == RefPrices(t2, ResolveRoles(t1, t2))[j]
  {
    var r := ResolveRoles(t1, t2);
    if ByCode(r) {
      PriceMapDomain(RefCodeKeys(t2, r), RefPrices(t2, r), CodeKey(Get(t1.labels, row, r.code1.value)));
    }
    PriceMapFirst(RefNameKeys(t2, r), RefPrices(t2, r), NameKey(Get(t1.labels, row, r.name1.value)), j);
  }

  /** The name lookup fills in only where the code lookup found nothing, so both must come up empty. */
  lemma FallbackMissing(byCode: Cell, useName: bool, m: map<string, Cell>, k: string)
    requires forall x | x in m :: m[x] != Missing
    ensures (if byCode.Missing? && useName then Lookup(m, k) else byCode).Missing? <==>
      byCode.Missing? && (useName ==> k !in m)
  {
  }

  /** A row finds no price exactly when neither its code nor its name has a priced reference row. */
  lemma FoundPriceMissingIff(t1: Table, t2: Table, row: seq<Cell>)
    requires Truthy(ResolveRoles(t1, t2).unit2)
    ensures var r := ResolveRoles(t1, t2);
      FoundPrice(t1, t2, row).Missing? <==>
        (ByCode(r) ==> !Priced(RefCodeKeys(t2, r), RefPrices(t2, r), CodeKey(Get(t1.labels, row, r.code1.value))))
        && (ByName(r) ==> !Priced(RefNameKeys(t2, r), RefPrices(t2, r), NameKey(Get(t1.labels, row, r.name1.value))))
  {
    var r := ResolveRoles(t1, t2);
    var byCode := if ByCode(r) then Lookup(CodePriceMap(t2, r), CodeKey(Get(t1.labels, row, r.code1.value))) else Missing;
    if ByCode(r) {
      PriceMapDomain(RefCodeKeys(t2, r), RefPrices(t2, r), CodeKey(Get(t1.labels, row, r.code1.value)));
    }
    if ByName(r) {
      var kn := NameKey(Get(t1.labels, row, r.name1.value));
      PriceMapDomain(RefNameKeys(t2, r), RefPrices(t2, r), kn);
      FallbackMissing(byCode, true, NamePriceMap(t2, r), kn);
    }
  }
}
