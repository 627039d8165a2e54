/**
 * The cleanup of the consolidated table before it is written to a workbook:
 * the header made unique and trimmed, then one rule per column, chosen in
 * priority order: dates, professional names, the unit and total amounts,
 * and free text.
 */
module ExportSanitizer {
  import opened Wrappers
  import opened Strings
  import opened Cells
  import opened Tables
  import opened Normalizer

  /** The pandas dtype of a column: numeric, datetime64, or object. */
  datatype Kind = Numeric | Datetime | Object

  /** The rule the export loop applies to one column, or none. */
  datatype Rule = AsDate | StripName | AsAmount | CleanFree | Keep

  // ---------------------------------------------------------------- header

  /** `~columns.duplicated()`: the first column of each label, labels in `seen` already taken. */
  function DedupLabels(labels: seq<string>, seen: set<string>): (r: seq<string>)
    ensures Distinct(r) && |r| <= |labels|
    ensures forall m :: m in r <==> m in labels && m !in seen
    decreases |labels|
  {
    if labels == [] then []
    else if labels[0] in seen then DedupLabels(labels[1..], seen)
    else
      var rest := DedupLabels(labels[1..], seen + {labels[0]});
      assert labels[0] !in rest;
      [labels[0]] + rest
  }

  /** The cells (or any per-column values) of the columns `DedupLabels` keeps. */
  function DedupValues<T>(labels: seq<string>, xs: seq<T>, seen: set<string>): (r: seq<T>)
    requires |xs| == |labels|
    ensures |r| == |DedupLabels(labels, seen)|
    decreases |labels|
  {
    if labels == [] then []
    else if labels[0] in seen then DedupValues(labels[1..], xs[1..], seen)
    else [xs[0]] + DedupValues(labels[1..], xs[1..], seen + {labels[0]})
  }

  /** Keeping the first column of each label never changes what a label reads. */
  lemma {:induction false} LookupDedup(labels: seq<string>, row: seq<Cell>, seen: set<string>, m: string)
    requires |row| == |labels| && m !in seen
    ensures LookupCell(DedupLabels(labels, seen), DedupValues(labels, row, seen), m) == LookupCell(labels, row, m)
    decreases |labels|
  {
    if labels != [] {
      if labels[0] in seen {
        LookupDedup(labels[1..], row[1..], seen, m);
      } else if labels[0] != m {
        LookupDedup(labels[1..], row[1..], seen + {labels[0]}, m);
      }
    }
  }

  /** A header without repeated labels, none of them taken, is kept whole. */
  lemma {:induction false} DedupDistinct<T>(labels: seq<string>, xs: seq<T>, seen: set<string>)
    requires |xs| == |labels| && Distinct(labels) && forall k | 0 <= k < |labels| :: labels[k] !in seen
    ensures DedupLabels(labels, seen) == labels && DedupValues(labels, xs, seen) == xs
    decreases |labels|
  {
    if labels != [] {
      var rest := labels[1..];
      assert labels[0] !in seen;
      assert forall k | 0 <= k < |rest| :: rest[k] == labels[k + 1];
      assert Distinct(rest);
      assert forall k | 0 <= k < |rest| :: rest[k] !in seen + {labels[0]};
      DedupDistinct(rest, xs[1..], seen + {labels[0]});
    }
  }

  /** `columns.astype(str).str.strip()` */
  function TrimAll(labels: seq<string>): (r: seq<string>)
    ensures |r| == |labels| && forall k | 0 <= k < |r| :: r[k] == Trim(labels[k]) && IsTrimmed(r[k])
  {
    seq(|labels|, k requires 0 <= k < |labels| => Trim(labels[k]))
  }

  /** Lines 186-187 as written: duplicates dropped first, labels trimmed afterwards. */
  function HeaderAsWritten(labels: seq<string>): (r: seq<string>)
    ensures |r| <= |labels| && forall k | 0 <= k < |r| :: IsTrimmed(r[k])
  {
    TrimAll(DedupLabels(labels, {}))
  }

  /** Two different labels are both kept by the dedup. */
  lemma DedupPair(a: string, b: string)
    requires a != b
    ensures DedupLabels([a, b], {}) == [a, b]
  {
    var l := [a, b];
    assert l[1..] == [b];
    var one: seq<string> := [b];
    assert one[1..] == [];
    assert DedupLabels(one, {a}) == [b] + DedupLabels([], {a} + {b});
    assert DedupLabels(l, {}) == [a] + DedupLabels(l[1..], {} + {a});
  }

  /** Two different labels with the same trimmed form collide in the header as written. */
  lemma HeaderPairCollides(a: string, b: string)
    requires a != b && Trim(a) == Trim(b)
    ensures !Distinct(HeaderAsWritten([a, b]))
  {
    DedupPair(a, b);
    var h := HeaderAsWritten([a, b]);
    assert h[0] == Trim(a) && h[1] == Trim(b);
  }

  /** Two labels that differ only in trailing blanks survive the dedup and then collide. */
  lemma HeaderAsWrittenCollides()
    ensures !Distinct(HeaderAsWritten(["Nombre", "Nombre "]))
  {
    var a := "Nombre ";
    assert |a| != |"Nombre"|;
    TrimStartStop(a);
    TrimEndStep(a);
    assert a[..|a| - 1] == "Nombre";
    TrimStartStop("Nombre");
    TrimEndStop("Nombre");
    HeaderPairCollides("Nombre", a);
  }

  /** The header trimmed first and deduplicated afterwards: trimmed, unique, and every trimmed label present. */
  function Header(labels: seq<string>): (r: seq<string>)
    ensures Distinct(r) && forall k | 0 <= k < |r| :: IsTrimmed(r[k])
  {
    var trimmed := TrimAll(labels);
    var r := DedupLabels(trimmed, {});
    MembersTrimmed(r, trimmed);
    r
  }

  /** Every trimmed label is in the header, and nothing else is. */
  lemma HeaderMembers(labels: seq<string>, m: string)
    ensures m in Header(labels) <==> exists k | 0 <= k < |labels| :: Trim(labels[k]) == m
  {
    TrimAllMembers(labels);
  }

  /** The trimmed header holds exactly the trimmed forms of the labels. */
  lemma TrimAllMembers(labels: seq<string>)
    ensures forall m :: m in TrimAll(labels) <==> exists k | 0 <= k < |labels| :: Trim(labels[k]) == m
  {
    var trimmed := TrimAll(labels);
    forall m ensures m in trimmed <==> exists k | 0 <= k < |labels| :: Trim(labels[k]) == m {
      if m in trimmed {
        var k :| 0 <= k < |trimmed| && trimmed[k] == m;
        assert Trim(labels[k]) == m;
      }
      if exists k | 0 <= k < |labels| :: Trim(labels[k]) == m {
        var k :| 0 <= k < |labels| && Trim(labels[k]) == m;
        assert trimmed[k] == m;
      }
    }
  }

  /** Labels drawn from a trimmed header are trimmed. */
  lemma MembersTrimmed(r: seq<string>, trimmed: seq<string>)
    requires forall m | m in r :: m in trimmed
    requires forall k | 0 <= k < |trimmed| :: IsTrimmed(trimmed[k])
    ensures forall k | 0 <= k < |r| :: IsTrimmed(r[k])
  {
    forall k | 0 <= k < |r| ensures IsTrimmed(r[k]) {
      assert r[k] in r;
      var j :| 0 <= j < |trimmed| && trimmed[j] == r[k];
    }
  }

  /** The table with the corrected header, each row keeping the cells of the columns kept. */
  function Deduped(t: Table): (r: Table)
    requires WellFormed(t)
    ensures WellFormed(r) && |r.rows| == |t.rows| && r.labels == Header(t.labels)
  {
    Table(Header(t.labels), seq(|t.rows|, i requires 0 <= i < |t.rows| => DedupValues(TrimAll(t.labels), t.rows[i], {})))
  }

  /** Each trimmed label of the export reads the first column whose label trims to it. */
  lemma DedupedLookup(t: Table, i: nat, m: string)
    requires WellFormed(t) && i < |t.rows|
    ensures var d := Deduped(t); LookupCell(d.labels, d.rows[i], m) == LookupCell(TrimAll(t.labels), t.rows[i], m)
  {
    LookupDedup(TrimAll(t.labels), t.rows[i], {}, m);
  }

  /** The dtypes of the columns `Deduped` keeps. */
  function DedupKinds(labels: seq<string>, kinds: seq<Kind>): (r: seq<Kind>)
    requires |kinds| == |labels|
    ensures |r| == |Header(labels)|
  {
    DedupValues(TrimAll(labels), kinds, {})
  }

  lemma TrimAllClean(labels: seq<string>)
    requires forall k | 0 <= k < |labels| :: IsTrimmed(labels[k])
    ensures TrimAll(labels) == labels
  {
    forall k | 0 <= k < |labels| ensures Trim(labels[k]) == labels[k] {
      TrimFixedIff(labels[k]);
    }
  }

  lemma DedupRowsClean(labels: seq<string>, rows: seq<seq<Cell>>)
    requires Distinct(labels) && forall i | 0 <= i < |rows| :: |rows[i]| == |labels|
    ensures seq(|rows|, i requires 0 <= i < |rows| => DedupValues(labels, rows[i], {})) == rows
  {
    var d := seq(|rows|, i requires 0 <= i < |rows| => DedupValues(labels, rows[i], {}));
    forall i | 0 <= i < |rows| ensures d[i] == rows[i] {
      DedupDistinct(labels, rows[i], {});
    }
  }

  /** A header that is already trimmed and unique is kept as it is, with its rows and dtypes. */
  lemma DedupedClean(t: Table, kinds: seq<Kind>)
    requires WellFormed(t) && |kinds| == |t.labels|
    requires Distinct(t.labels) && forall k | 0 <= k < |t.labels| :: IsTrimmed(t.labels[k])
    ensures Deduped(t) == t && DedupKinds(t.labels, kinds) == kinds
  {
    TrimAllClean(t.labels);
    DedupDistinct(t.labels, kinds, {});
    DedupRowsClean(t.labels, t.rows);
  }

  // ---------------------------------------------------------------- per-column rules

  /**
   * Lines 190-205: a date keyword or a datetime column first, then
   * "profesional", then the unit or total column, then free text.
   */
  function RuleFor(name: string, kind: Kind, unitLabel: string, totalLabel: string): Rule {
    var l := Lower(name);
    if Contains(l, "fecha") || Contains(l, "inicio") || Contains(l, "fin") || kind == Datetime then AsDate
    else if Contains(l, "profesional") then StripName
    else if name == unitLabel || name == totalLabel then AsAmount
    else if kind == Object then CleanFree
    else Keep
  }

  /** What one cell becomes under its column's rule. */
  function SanitizeCell(rule: Rule, parse: DateParser, c: Cell): (r: Cell)
    ensures rule == AsDate ==> (r.Date? || r.Missing?) && (c.Date? ==> r == c) && (c.Missing? ==> r == c)
    ensures rule == StripName ==> r.Text? && IsTrimmed(r.text)
    ensures rule == AsAmount ==> r.Num? && (c.Num? ==> r == c) && (c.Missing? ==> r == Num(0))
    ensures rule == CleanFree ==>
      r.Text? && NoControl(r.text) && (r.text == [] || r.text[0] != '=') && |r.text| <= CellLimit
    ensures rule == CleanFree && c.Missing? ==> r == Text("")
    ensures rule == Keep ==> r == c
  {
    match rule
    case AsDate => (match ToDate(parse, c) case Some(d) => Date(d) case None => Missing)
    case StripName => Text(StripProfessionalPrefix(AsText(c)))
    case AsAmount => Num(AsNumber(c).GetOr(0))
    case CleanFree => Text(CleanText(if c.Missing? then "" else AsText(c)))
    case Keep => c
  }

  /** The dtype a column has once its rule has run. */
  function OutKind(rule: Rule, kind: Kind): Kind {
    match rule
    case AsDate => Datetime
    case StripName => Object
    case AsAmount => Numeric
    case CleanFree => Object
    case Keep => kind
  }

  /** Every column rewritten by its own rule, the header untouched. */
  function Sanitized(t: Table, kinds: seq<Kind>, unitLabel: string, totalLabel: string, parse: DateParser): (r: Table)
    requires WellFormed(t) && |kinds| == |t.labels|
    ensures WellFormed(r) && r.labels == t.labels && |r.rows| == |t.rows|
    ensures forall i, j | 0 <= i < |r.rows| && 0 <= j < |r.labels| ::
      r.rows[i][j] == SanitizeCell(RuleFor(t.labels[j], kinds[j], unitLabel, totalLabel), parse, t.rows[i][j])
  {
    Table(t.labels, seq(|t.rows|, i requires 0 <= i < |t.rows| =>
      seq(|t.labels|, j requires 0 <= j < |t.labels| =>
        SanitizeCell(RuleFor(t.labels[j], kinds[j], unitLabel, totalLabel), parse, t.rows[i][j]))))
  }

  /** The dtypes after `Sanitized`. */
  function OutKinds(t: Table, kinds: seq<Kind>, unitLabel: string, totalLabel: string): (r: seq<Kind>)
    requires |kinds| == |t.labels|
    ensures |r| == |kinds|
  {
    seq(|kinds|, j requires 0 <= j < |kinds| => OutKind(RuleFor(t.labels[j], kinds[j], unitLabel, totalLabel), kinds[j]))
  }

  /** Lines 185-209: the exported table. */
  function Exported(t: Table, kinds: seq<Kind>, unitLabel: string, totalLabel: string, parse: DateParser): (r: Table)
    requires WellFormed(t) && |kinds| == |t.labels|
    ensures WellFormed(r) && |r.rows| == |t.rows| && r.labels == Header(t.labels)
  {
    var d := Deduped(t);
    Sanitized(d, DedupKinds(t.labels, kinds), unitLabel, totalLabel, parse)
  }

  /** The dtypes of the exported table. */
  function ExportedKinds(t: Table, kinds: seq<Kind>, unitLabel: string, totalLabel: string): (r: seq<Kind>)
    requires WellFormed(t) && |kinds| == |t.labels|
    ensures |r| == |Header(t.labels)|
  {
    OutKinds(Deduped(t), DedupKinds(t.labels, kinds), unitLabel, totalLabel)
  }

  // ---------------------------------------------------------------- in place

  /** Column `j` rewritten by `rule`. */
  function SanitizedColumn(t: Table, j: nat, rule: Rule, parse: DateParser): (c: seq<Cell>)
    requires WellFormed(t) && j < |t.labels|
    ensures |c| == |t.rows|
  {
    seq(|t.rows|, i requires 0 <= i < |t.rows| => SanitizeCell(rule, parse, t.rows[i][j]))
  }

  /** The export loop after its first `n` columns. */
  function PartlySanitized(t: Table, kinds: seq<Kind>, unitLabel: string, totalLabel: string, parse: DateParser, n: nat): (r: Table)
    requires WellFormed(t) && |kinds| == |t.labels| && n <= |t.labels|
    ensures WellFormed(r) && r.labels == t.labels && |r.rows| == |t.rows|
  {
    Table(t.labels, seq(|t.rows|, i requires 0 <= i < |t.rows| =>
      seq(|t.labels|, j requires 0 <= j < |t.labels| =>
        if j < n then SanitizeCell(RuleFor(t.labels[j], kinds[j], unitLabel, totalLabel), parse, t.rows[i][j])
        else t.rows[i][j])))
  }

  lemma PartlyNone(t: Table, kinds: seq<Kind>, unitLabel: string, totalLabel: string, parse: DateParser)
    requires WellFormed(t) && |kinds| == |t.labels|
    ensures PartlySanitized(t, kinds, unitLabel, totalLabel, parse, 0) == t
  {
    var p := PartlySanitized(t, kinds, unitLabel, totalLabel, parse, 0);
    assert forall i | 0 <= i < |t.rows| :: p.rows[i] == t.rows[i];
  }

  lemma PartlyAll(t: Table, kinds: seq<Kind>, unitLabel: string, totalLabel: string, parse: DateParser)
    requires WellFormed(t) && |kinds| == |t.labels|
    ensures PartlySanitized(t, kinds, unitLabel, totalLabel, parse, |t.labels|) == Sanitized(t, kinds, unitLabel, totalLabel, parse)
  {
    var p := PartlySanitized(t, kinds, unitLabel, totalLabel, parse, |t.labels|);
    var s := Sanitized(t, kinds, unitLabel, totalLabel, parse);
    assert forall i | 0 <= i < |t.rows| :: p.rows[i] == s.rows[i];
  }

  /** One more loop step: column `n`, still as it was, gets its rule. */
  lemma PartlyStep(t: Table, kinds: seq<Kind>, unitLabel: string, totalLabel: string, parse: DateParser, n: nat)
    requires WellFormed(t) && |kinds| == |t.labels| && n < |t.labels|
    ensures var p := PartlySanitized(t, kinds, unitLabel, totalLabel, parse, n);
      var rule := RuleFor(t.labels[n], kinds[n], unitLabel, totalLabel);
      WithColumnAt(p, n, SanitizedColumn(p, n, rule, parse)) == PartlySanitized(t, kinds, unitLabel, totalLabel, parse, n + 1)
  {
    var p := PartlySanitized(t, kinds, unitLabel, totalLabel, parse, n);
    var rule := RuleFor(t.labels[n], kinds[n], unitLabel, totalLabel);
    var w := WithColumnAt(p, n, SanitizedColumn(p, n, rule, parse));
    var q := PartlySanitized(t, kinds, unitLabel, totalLabel, parse, n + 1);
    forall i | 0 <= i < |t.rows| ensures w.rows[i] == q.rows[i] {
      assert |w.rows[i]| == |q.rows[i]|;
      forall k | 0 <= k < |t.labels| ensures w.rows[i][k] == q.rows[i][k] {
      }
    }
  }

  /** Lines 185-209: a copy deduplicated by header, then rewritten column by column. */
  method Export(t: Table, kinds: seq<Kind>, unitLabel: string, totalLabel: string, parse: DateParser) returns (r: Table)
    requires WellFormed(t) && |kinds| == |t.labels|
    ensures r == Exported(t, kinds, unitLabel, totalLabel, parse)
  {
    var d := Deduped(t);
    var ks := DedupKinds(t.labels, kinds);
    var df := new DataFrame(d);
    PartlyNone(d, ks, unitLabel, totalLabel, parse);
    var j := 0;
    while j < |d.labels|
      invariant 0 <= j <= |d.labels|
      invariant df.Valid() && df.Snapshot() == PartlySanitized(d, ks, unitLabel, totalLabel, parse, j)
    {
      var rule := RuleFor(df.labels[j], ks[j], unitLabel, totalLabel);
      PartlyStep(d, ks, unitLabel, totalLabel, parse, j);
      df.SetColumnAt(j, SanitizedColumn(df.Snapshot(), j, rule, parse));
      j := j + 1;
    }
    PartlyAll(d, ks, unitLabel, totalLabel, parse);
    r := df.Snapshot();
  }

  // ---------------------------------------------------------------- properties

  /**
   * Every cell of the export, read through its exported column: free text is
   * clean, amounts are numbers, date columns hold dates or nothing, and a
   * column without a rule is copied.
   */
  lemma ExportedCell(t: Table, kinds: seq<Kind>, unitLabel: string, totalLabel: string, parse: DateParser, i: nat, j: nat)
    requires WellFormed(t) && |kinds| == |t.labels| && i < |t.rows| && j < |Header(t.labels)|
    ensures var e := Exported(t, kinds, unitLabel, totalLabel, parse); var d := Deduped(t);
      Obeys(RuleFor(e.labels[j], DedupKinds(t.labels, kinds)[j], unitLabel, totalLabel), e.rows[i][j], d.rows[i][j])
  {
    var d := Deduped(t);
    var rule := RuleFor(d.labels[j], DedupKinds(t.labels, kinds)[j], unitLabel, totalLabel);
    SanitizeObeys(rule, parse, d.rows[i][j]);
  }

  /** What a cell sanitised by `rule` looks like; `kept` is the cell before. */
  predicate Obeys(rule: Rule, c: Cell, kept: Cell) {
    (rule == CleanFree ==> c.Text? && NoControl(c.text) && (c.text == [] || c.text[0] != '=') && |c.text| <= CellLimit)
    && (rule == AsAmount ==> c.Num?)
    && (rule == AsDate ==> c.Date? || c.Missing?)
    && (rule == StripName ==> c.Text? && IsTrimmed(c.text))
    && (rule == Keep ==> c == kept)
  }

  /** Each rule gives its cells the promised form. */
  lemma SanitizeObeys(rule: Rule, parse: DateParser, c: Cell)
    ensures Obeys(rule, SanitizeCell(rule, parse, c), c)
  {
  }

  /** Date columns win over professional and amount columns. */
  lemma DateRuleFirst(name: string, kind: Kind, unitLabel: string, totalLabel: string)
    requires Contains(Lower(name), "fecha") || kind == Datetime
    ensures RuleFor(name, kind, unitLabel, totalLabel) == AsDate
  {
  }

  /** A text column named like the unit or total column is coerced to numbers, never cleaned as text. */
  lemma AmountRuleBeforeText(name: string, unitLabel: string, totalLabel: string)
    requires name == unitLabel || name == totalLabel
    requires !Contains(Lower(name), "fecha") && !Contains(Lower(name), "inicio") && !Contains(Lower(name), "fin")
    requires !Contains(Lower(name), "profesional")
    ensures RuleFor(name, Object, unitLabel, totalLabel) == AsAmount
  {
  }

  /** One column's rule applied to its own output changes nothing, except for professional names. */
  lemma RuleIdempotent(name: string, kind: Kind, unitLabel: string, totalLabel: string, parse: DateParser, c: Cell)
    requires RuleFor(name, kind, unitLabel, totalLabel) != StripName
    ensures var rule := RuleFor(name, kind, unitLabel, totalLabel);
      RuleFor(name, OutKind(rule, kind), unitLabel, totalLabel) == rule
      && SanitizeCell(rule, parse, SanitizeCell(rule, parse, c)) == SanitizeCell(rule, parse, c)
  {
    var rule := RuleFor(name, kind, unitLabel, totalLabel);
    if rule == CleanFree {
      CleanTextIdempotent(if c.Missing? then "" else AsText(c));
    }
    if rule == AsDate {
      assert SanitizeCell(rule, parse, c).Date? || SanitizeCell(rule, parse, c).Missing?;
    }
  }

  /** A professional-name column keeps its rule on a second export. */
  lemma StripRuleRepeats(name: string, kind: Kind, unitLabel: string, totalLabel: string)
    requires RuleFor(name, kind, unitLabel, totalLabel) == StripName
    ensures RuleFor(name, OutKind(StripName, kind), unitLabel, totalLabel) == StripName
  {
  }

  /** ... and strips again: "12 - 34 Ana" exports as "34 Ana", and that as "Ana". */
  lemma StripRuleNotIdempotent(parse: DateParser)
    ensures var once := SanitizeCell(StripName, parse, Text("12 - 34 Ana"));
      SanitizeCell(StripName, parse, once) != once
  {
    StripFirstPass();
    assert SanitizeCell(StripName, parse, Text("12 - 34 Ana")) == Text("34 Ana");
    StripSecondPass();
    assert SanitizeCell(StripName, parse, Text("34 Ana")) == Text("Ana");
  }

  /**
   * Exporting an exported table again changes neither its header nor its
   * cells, as long as no column is a professional-name column.
   */
  lemma ExportIdempotent(t: Table, kinds: seq<Kind>, unitLabel: string, totalLabel: string, parse: DateParser)
    requires WellFormed(t) && |kinds| == |t.labels|
    requires forall j | 0 <= j < |Header(t.labels)| ::
      RuleFor(Header(t.labels)[j], DedupKinds(t.labels, kinds)[j], unitLabel, totalLabel) != StripName
    ensures var e := Exported(t, kinds, unitLabel, totalLabel, parse);
      Exported(e, ExportedKinds(t, kinds, unitLabel, totalLabel), unitLabel, totalLabel, parse) == e
  {
    var d := Deduped(t);
    var ks := DedupKinds(t.labels, kinds);
    var e := Exported(t, kinds, unitLabel, totalLabel, parse);
    var eks := ExportedKinds(t, kinds, unitLabel, totalLabel);
    assert e == Sanitized(d, ks, unitLabel, totalLabel, parse);
    assert eks == OutKinds(d, ks, unitLabel, totalLabel);
    DedupedClean(e, eks);
    SanitizedAgain(d, ks, unitLabel, totalLabel, parse);
  }

  /** Sanitising a sanitised table again, under the dtypes it now has, changes nothing without professional columns. */
  lemma SanitizedAgain(d: Table, ks: seq<Kind>, unitLabel: string, totalLabel: string, parse: DateParser)
    requires WellFormed(d) && |ks| == |d.labels|
    requires forall j | 0 <= j < |d.labels| :: RuleFor(d.labels[j], ks[j], unitLabel, totalLabel) != StripName
    ensures var e := Sanitized(d, ks, unitLabel, totalLabel, parse);
      Sanitized(e, OutKinds(d, ks, unitLabel, totalLabel), unitLabel, totalLabel, parse) == e
  {
    var e := Sanitized(d, ks, unitLabel, totalLabel, parse);
    var eks := OutKinds(d, ks, unitLabel, totalLabel);
    var e2 := Sanitized(e, eks, unitLabel, totalLabel, parse);
    forall i | 0 <= i < |e.rows| ensures e2.rows[i] == e.rows[i] {
      forall j | 0 <= j < |e.labels| ensures e2.rows[i][j] == e.rows[i][j] {
        RuleIdempotent(d.labels[j], ks[j], unitLabel, totalLabel, parse, d.rows[i][j]);
      }
    }
  }
}
