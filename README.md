# Billing reconciliation core, modelled in Dafny

`appy.py` is a Streamlit application that consolidates billing workbooks of
health services. This project models the data logic underneath its screens:

- **Column resolution** (`find_col` and the inline `next(...)` searches). A
  column is the left-most label whose lower-cased text contains one of the
  keywords.
- **Loading** (`leer_excel`):
  - the professional names of the first workbook lose their leading numeric
    code;
  - two non-empty workbooks are consolidated when the second one can price
    the first, looked up by trimmed code or by trimmed lower-cased name;
  - otherwise the two are stacked, or a single one is taken;
  - the header is trimmed;
  - with nothing usable uploaded, the table already in the session or the one
    saved on disk is used.
- **Price enrichment.** The following happens in place on the first workbook:
  - working key columns and a found-price column are added;
  - the unit column is chosen or created and repaired;
  - the total column becomes unit times quantity;
  - the working columns are dropped.
- **Export sanitiser.** Before the consolidated workbook is written, the header
  is made unique and trimmed. Each column then gets one rule, in priority
  order: dates, professional names, the unit and total amounts, free text.
  Free text loses control characters, gets a quote before a leading `=`, and
  is cut to 32700 characters.
- **Report filter** (`filtrar_datos`). Rows are matched on professional,
  procedure and city, compared trimmed and case-insensitively. The date range
  is inclusive. A warning is returned when there is no date column.
- **Drop-down choices** (`get_dropdown_options`). These are the trimmed
  spellings of a column, one per case-insensitive value (the spelling of its
  last occurrence), sorted.
- **Headline total** (`calcular_totales`). This is the sum of the positive
  amounts of the value column. A label that is exactly "valor" wins over one
  that only contains it.
- **Cross-check of two workbooks** on a shared key column. The keys are
  trimmed; the result is the inner join plus the rows of either side whose
  key the other side lacks.

A workbook cell is `Cell = Text | Num | Date | Missing`, and a DataFrame is a
`Table` (header plus rows). Label access reads the first column with that
label. Where the code changes a DataFrame column by column (enrichment, the
export loop, loading), the model is imperative:
- a `DataFrame` class with `SetColumn`, `DropColumn`, `SetColumnAt` and
  `Relabel`;
- the methods `Enrich`, `Export` and `Load`.

Each of those methods is proved equal to a pure function (`Enriched`,
`Exported`, `Consolidated`). The lemmas state what those functions guarantee,
in terms of the original tables.

Three behaviours of the code are modelled as written and surfaced as lemmas:

- **The "Valor" fallback for the total column (appy.py:159-161) is dead.**
  The found-price column `__Valor_Encontrado__` contains "valor", so the
  total search always finds a column. Without a proper total column the
  totals go into that working column, which lines 166-168 then drop
  (`TotalLost`).
- **A unit column whose label contains "valor" also receives the totals** when
  it is the first column to match the total keywords
  (`UnitOverwrittenByTotal`).
- **With no data left, `leer_excel` ends with a caught error.** In that branch
  (line 240), `st.session_state.get('df') or cargar_excel()` with a session
  DataFrame raises an error about the truth value of a DataFrame. The handler
  at lines 249-251 shows it and returns the session's table. The model keeps
  the net result (the session's table, else the saved one) as `Fallback`.

The export is not idempotent. Its professional-name rule strips a leading
code again on a second export (`StripRuleNotIdempotent`), so
`ExportIdempotent` is proved only for tables without a professional column.

## Model

| member | source | states |
|---|---|---|
| ColumnResolver.FindColumn | appy.py:79-83 | the position found holds a label matching a keyword, no earlier label matches; none is found exactly when no label matches |
| ColumnResolver.FindColumnUnique | appy.py:79-83 | the first matching position is the only answer the search can give |
| ColumnResolver.CandidateOrderIrrelevant | appy.py:81 | candidate lists with the same members select the same column, whatever their order |
| ColumnResolver.FindColumnAppend | appy.py:80-82 | columns added at the end never change a match already found; they are searched only when there is none |
| ColumnResolver.FoundIsFirstWithLabel | appy.py:80-82 | no earlier column carries the found label, so label access reads the found column |
| ColumnResolver.FoundLabelNonEmpty | appy.py:81-82 | with non-empty candidates the found label is truthy exactly when a column was found |
| ColumnResolver.FindLabelIgnoresUnmatched | appy.py:80-82 | appended labels that match no candidate leave `find_col`'s answer unchanged |
| Normalizer.CodeKey | appy.py:122-123 | a code key is trimmed |
| Normalizer.NameKey | appy.py:125-126 | a name key is trimmed and already lower-case |
| Normalizer.TrimLower | appy.py:125-126 | stripping and lower-casing commute, for every text |
| Normalizer.NameKeyIgnoresBlanks | appy.py:125-126 | for every name, blanks around it do not change its key |
| Normalizer.NameKeyIgnoresCase | appy.py:125-126 | for every name, its case does not change its key |
| Normalizer.NameKeyExample | appy.py:125-126 | a worked example: "CONSULTA " and "consulta" share a key |
| Normalizer.StripProfessionalPrefix | appy.py:107 | the cleaned name is trimmed and never longer than the input |
| Normalizer.StripWithoutLeadingDigit | appy.py:107 | a name not starting with a digit is only trimmed |
| Normalizer.StripFixedIff | appy.py:107 | the cleanup leaves a name unchanged exactly when it is trimmed and does not start with a digit |
| Normalizer.StripTwiceIff | appy.py:107 | cleaning twice equals cleaning once exactly when the first result does not start with a digit |
| Normalizer.StripCodeDash | appy.py:107 | a digit code followed by " - " is removed with its separator |
| Normalizer.StripCodeBlank | appy.py:107 | a digit code followed by one blank is removed with the blank |
| Normalizer.StripPrefixDash | appy.py:107 | a code, " - " and a trimmed name clean to the name alone |
| Normalizer.StripPrefixBlank | appy.py:107 | a code, one blank and a trimmed name not starting with a dash clean to the name alone |
| Normalizer.StripNotIdempotent | appy.py:107 | "12 - 34 Ana" cleans to "34 Ana", which cleans again to "Ana" |
| Normalizer.RemoveControls | appy.py:207 | the result has no control character of the removed ranges and is unchanged for text without them |
| Normalizer.CleanText | appy.py:206-209 | cleaned text has no control character, does not start with `=`, and has at most 32700 characters |
| Normalizer.CleanTextFixedIff | appy.py:206-209 | the cleanup leaves text alone exactly when it is already control-free, not a formula and within the limit |
| Normalizer.CleanTextIdempotent | appy.py:206-209 | cleaning cleaned text changes nothing |
| Normalizer.CleanTextQuotesFormula | appy.py:208 | short control-free text starting with `=` gains exactly one leading quote |
| Cells.AsNumberOfText | appy.py:149-150 | an integer written as text coerces back to the same number |
| Tables.ConcatRows | appy.py:233 | stacked rows read as in their own table, with missing cells under the labels only the other table has |
| PriceEnricher.PriceMap | appy.py:131-133 | the price map never holds a missing price |
| PriceEnricher.PriceMapDomain | appy.py:131-133 | a key has a price exactly when some priced reference row carries it |
| PriceEnricher.PriceMapFirst | appy.py:132-133 | the first priced row of a key supplies its price; later duplicates never override it |
| PriceEnricher.WithoutColumns | appy.py:166-168 | after the drop loop no working label remains and every other label reads as before |
| PriceEnricher.Enriched | appy.py:119-168 | the enriched table is well formed, keeps one row per row of table 1 and holds no working column |
| PriceEnricher.AddKeys | appy.py:122-125 | in place, the table becomes the table with its key columns |
| PriceEnricher.AddFoundPrices | appy.py:128-141 | in place, the found-price column is added and filled by code, then by name for rows still missing |
| PriceEnricher.RepairUnitsInPlace | appy.py:143-151 | in place, the unit column is chosen or created and repaired; the label chosen is returned |
| PriceEnricher.ApplyTotalsInPlace | appy.py:153-164 | in place, the total column becomes unit times quantity; the label chosen is returned |
| PriceEnricher.DropWorkingColumns | appy.py:166-168 | the loop drops the working columns one by one |
| PriceEnricher.Enrich | appy.py:122-168 | the in-place enrichment ends in the table `Enriched` describes and returns its unit and total labels |
| EnrichmentProperties.KeysLabels | appy.py:122-125 | the key columns are appended after table 1's labels |
| EnrichmentProperties.KeysLabelsFor | appy.py:122-125 | whichever key columns are resolved, they are appended after table 1's labels in order code, name |
| EnrichmentProperties.KeysRow | appy.py:122-125 | the key columns hold the trimmed code and the trimmed lower-cased name; every other label reads as in table 1 |
| EnrichmentProperties.FoundLabels | appy.py:128 | the found-price column comes after the key columns |
| EnrichmentProperties.FoundStep | appy.py:128-141 | on any table carrying the key columns, the found column holds the code price, else (where that is missing and names are usable) the name price; no other column changes |
| EnrichmentProperties.FoundRow | appy.py:128-141 | each row's found price is its code's price, else its name's price; the rest reads as before |
| EnrichmentProperties.FoundPriceByCode | appy.py:130-134 | matching by code, the first priced reference row with the row's trimmed code gives the price |
| EnrichmentProperties.FoundPriceByName | appy.py:136-141 | a row whose code finds no price takes the first priced reference row with its name |
| EnrichmentProperties.FoundPriceMissingIff | appy.py:130-141 | a row finds no price exactly when neither its code nor its name has a priced reference row |
| EnrichmentProperties.UnitLabels | appy.py:143-147 | the unit label is table 1's first unit column, else "Valor Unitario", which is appended when absent |
| EnrichmentProperties.UnitRow | appy.py:149-151 | the unit cell becomes the numeric found price, else the numeric old value, else 0 |
| EnrichmentProperties.QuantityRow | appy.py:153-157 | the quantity is the numeric quantity cell, else 1, as table 1 gives it |
| EnrichmentProperties.TotalSearchOver | appy.py:159-161 | the total search finds table 1's total column, else the found-price column |
| EnrichmentProperties.TotalLabels | appy.py:159-161 | the total label is table 1's first total-keyword column, else the found-price column |
| EnrichmentProperties.TotalRow | appy.py:163-164 | the total cell is the repaired unit times the quantity |
| EnrichmentProperties.DropAdded | appy.py:166-168 | of the added columns only "Valor Unitario" survives the drop |
| EnrichmentProperties.EnrichedLabels | appy.py:119-168 | the final header is table 1's followed by "Valor Unitario" when it had no unit column; unit and total labels as chosen on table 1 |
| EnrichmentProperties.EnrichedRow | appy.py:119-168 | every final cell: total is unit times quantity, unit is the resolved unit, working columns are gone, the rest is table 1's |
| EnrichmentProperties.TotalLost | appy.py:159-168 | without a total column the totals go to the working column and are dropped; "Valor" is never used |
| EnrichmentProperties.UnitOverwrittenByTotal | appy.py:143-164 | a unit column that is also the first total-keyword column ends up holding the total |
| ExportSanitizer.DedupLabels | appy.py:186 | the kept labels are distinct and exactly the labels not yet taken |
| ExportSanitizer.LookupDedup | appy.py:186 | keeping the first column of each label never changes what a label reads |
| ExportSanitizer.DedupDistinct | appy.py:186 | a header without repeats is kept whole, with its cells |
| ExportSanitizer.HeaderAsWritten | appy.py:186-187 | the header as written is trimmed and no longer than the input |
| ExportSanitizer.HeaderAsWrittenCollides | appy.py:186-187 | ["Nombre", "Nombre "] gives a header with a repeated label |
| ExportSanitizer.HeaderPairCollides | appy.py:186-187 | any two different labels with the same trimmed form collide in the header as written |
| ExportSanitizer.Header | appy.py:186-187 | the corrected header is distinct and trimmed |
| ExportSanitizer.HeaderMembers | appy.py:186-187 | the corrected header holds exactly the trimmed forms of the labels |
| ExportSanitizer.DedupedClean | appy.py:185-187 | a trimmed, unique header is kept with its rows and dtypes |
| ExportSanitizer.DateRuleFirst | appy.py:191 | a date keyword or datetime dtype selects the date rule before any other |
| ExportSanitizer.AmountRuleBeforeText | appy.py:203-205 | a text column named like the unit or total column is coerced to numbers, not cleaned as text |
| ExportSanitizer.SanitizeCell | appy.py:191-209 | each rule's output form: dates or missing, trimmed names, numbers with missing as 0, clean text with missing as "" |
| ExportSanitizer.Sanitized | appy.py:189-209 | every cell is rewritten by its own column's rule and the header is untouched |
| ExportSanitizer.Exported | appy.py:185-209 | the export keeps every row and carries the corrected header |
| ExportSanitizer.Export | appy.py:185-209 | the column-by-column loop produces the exported table |
| ExportSanitizer.ExportedCell | appy.py:189-209 | every exported cell has the form its column's rule promises |
| ExportSanitizer.SanitizeObeys | appy.py:191-209 | each rule gives its cells the promised form |
| ExportSanitizer.RuleIdempotent | appy.py:189-209 | apart from professional names, a rule applied to its own output keeps its rule and changes nothing |
| ExportSanitizer.StripRuleRepeats | appy.py:198-200 | a professional-name column gets the same rule on a second export |
| ExportSanitizer.StripRuleNotIdempotent | appy.py:200 | a second export strips "34 Ana" to "Ana" |
| ExportSanitizer.ExportIdempotent | appy.py:185-209 | exporting an export again changes nothing when there is no professional column |
| ExportSanitizer.SanitizedAgain | appy.py:189-209 | sanitising the cells a second time, with the dtypes the first pass left, changes nothing when no column is professional |
| CrossCheck.CommonColumns | appy.py:732 | the offered keys are exactly the labels both tables carry |
| CrossCheck.CommonColumnsSymmetric | appy.py:732 | the common columns do not depend on the order of the tables |
| CrossCheck.NormaliseKey | appy.py:738-739 | key normalisation keeps the header and the row count |
| CrossCheck.NormaliseKeyRow | appy.py:738-739 | the key reads as trimmed text and every other column is unchanged |
| CrossCheck.NormaliseKeyIdempotent | appy.py:738-739 | normalising twice equals normalising once |
| CrossCheck.MatchIndices | appy.py:742 | the positions of B holding a key, as many as the key's occurrences |
| CrossCheck.JoinPairs | appy.py:742 | the joined pairs are exactly the pairs of rows with equal keys |
| CrossCheck.JoinCount | appy.py:742 | a key held by m rows of A and n rows of B gives m * n matches |
| CrossCheck.JoinPartner | appy.py:742 | a row of A has a match exactly when its key occurs in B |
| CrossCheck.CompareMatchKeys | appy.py:742 | every match agrees on the trimmed key |
| CrossCheck.CompareMatchesArePairs | appy.py:742 | there is one match per joined pair |
| CrossCheck.OnlyInA | appy.py:745 | "only in A" keeps A's order, holds exactly the rows whose key B lacks, and with the matched rows makes up A |
| CrossCheck.OnlyInB | appy.py:748 | "only in B" is the same from B's side |
| CrossCheck.MatchedIffNotOnlyInA | appy.py:742-745 | a row of A is matched exactly when its key is in B |
| RowFilter.FilterEquals | appy.py:276-290 | one equality filter applied to the rows kept so far gives the rows passing all filters so far |
| RowFilter.FilterDates | appy.py:293-302 | the date mask applied to the rows kept so far gives the rows passing the whole filter |
| RowFilter.FilterData | appy.py:267-308 | the result keeps the header and exactly the rows the row test accepts, in order; the warning is set exactly when there is no date column; no table gives an empty table |
| RowFilter.FilterKeeps | appy.py:272-302 | the kept rows are a subsequence of the input holding exactly the accepted rows |
| RowFilter.EmptyQueryKeepsAll | appy.py:276-301 | with nothing chosen every row is kept |
| RowFilter.KeptRowMatches | appy.py:276-290 | a kept row matches every chosen value whose column exists, compared trimmed and lower-cased |
| RowFilter.BoundsInclusive | appy.py:298-301 | rows dated on either bound are kept |
| RowFilter.UnreadableDateDropped | appy.py:296-301 | a row whose date cannot be read fails as soon as one bound is given |
| RowFilter.CityBeforeSite | appy.py:285-287 | a city or municipality column is always used before a site column, and one of them is used when present |
| Dropdowns.KeyMapEntries | appy.py:262 | every key maps to a spelling of itself |
| Dropdowns.KeyMapKeys | appy.py:262 | the keys are exactly the lower-cased values |
| Dropdowns.KeyMapValues | appy.py:262 | the kept spellings are exactly the values that are the last of their key |
| Dropdowns.BuildKeyMap | appy.py:262 | the loop builds the dictionary of the comprehension |
| Dropdowns.Insert | appy.py:263 | insertion keeps the list strictly sorted and adds exactly the new value |
| Dropdowns.SortedValues | appy.py:263 | the result is strictly sorted and holds exactly the map's values |
| Dropdowns.DropdownOptions | appy.py:254-264 | nothing without a table or a matching column; otherwise sorted choices, distinct ignoring case, exactly the last spelling of each value |
| Dropdowns.OptionsFromColumn | appy.py:261-262 | every choice is a trimmed value of the column |
| Dropdowns.EveryValueOffered | appy.py:262 | every value of the column is offered under a spelling equal to it ignoring case |
| Dropdowns.LaterSpellingWins | appy.py:262 | two spellings of one value collapse to the later one |
| Totals.FirstIndexOf | appy.py:311 | the first position holding the target, none exactly when absent |
| Totals.PositiveSum | appy.py:316-317 | the sum of positive amounts is never negative |
| Totals.Total | appy.py:310-319 | the total is never negative, and 0 without a value column |
| Totals.PositiveSumAppend | appy.py:317 | the sum over two runs of cells is the sum of their sums |
| Totals.PositiveSumZeroIff | appy.py:317 | the sum is 0 exactly when no cell holds a positive number |
| Totals.PositiveSumBounds | appy.py:317 | no positive amount exceeds the total |
| Totals.ExactPreferred | appy.py:311-313 | a label that is exactly the target wins over earlier labels that only contain it |
| Totals.ExactLabelPreferred | appy.py:311-313 | a label that is exactly "valor" wins over earlier labels that only contain "valor" |
| Totals.TotalConcat | appy.py:310-319 | totals of two reports with one header add up when their rows are put together |
| Totals.NonPositiveRowIgnored | appy.py:316-317 | a row whose amount is not positive leaves the total unchanged |
| Consolidation.StrippedNames | appy.py:107 | one cleaned name per row |
| Consolidation.WithStrippedNames | appy.py:105-107 | the cleanup keeps the header and the row count |
| Consolidation.StrippedNamesCell | appy.py:105-107 | only the professional column changes, each of its cells becoming the cleaned text |
| Consolidation.TrimmedLabels | appy.py:242 | every label is trimmed and the rows are unchanged |
| Consolidation.Reduced | appy.py:182-183 | dropping the reference column keeps the row count |
| Consolidation.Merge | appy.py:109-233 | in place, two non-empty workbooks are enriched and exported, or else stacked; the frame stays valid, holds the enriched table when the lookup applies and is untouched otherwise |
| Consolidation.Load | appy.py:85-251 | the loading procedure yields the table and workbook `Consolidated` describes |
| Consolidation.NothingUsableFallsBack | appy.py:89-92 | with no usable upload, the session's table or the saved one is returned and no workbook is written |
| Consolidation.LoadedHeaderTrimmed | appy.py:235-242 | a usable upload always gives a table whose labels are all trimmed |
| Consolidation.WorkbookIffLookup | appy.py:110-229 | a workbook is written exactly when both uploads have data and can be priced; it then has the corrected header (trimmed, then deduplicated), which is distinct, and the table keeps the first upload's rows |
| Consolidation.StackedWithoutLookup | appy.py:231-233 | without a lookup, two non-empty uploads are stacked: all rows, both headers' labels, trimmed |
| Consolidation.SingleUploadKept | appy.py:235-238 | a single non-empty upload is taken as it is, apart from the cleaned names and the trimmed header |

## Left out

- Lower-casing (`LowerChar`) lowers the ASCII capitals and the Latin-1 capitals U+00C0 to U+00DE except U+00D7; the other mappings of Python's `str.lower` are not modelled.
- Numbers are integers. Floats, NaN arithmetic and the float result of `val_unit_safe * qtys` are not modelled; `to_numeric` accepts an optional sign and ASCII digits only.
- Date parsing (`pd.to_datetime(..., dayfirst=True)`) is the parameter `DateParser`; its formats are not modelled.
- The pandas dtype of each column is a parameter (`Kind`, and `dtypeOf` in `Load`); dtype inference by `read_excel` is not modelled.
- Labels that only become equal when line 242 trims them, such as "Nombre" and "Nombre ", are not renamed by `read_excel`. `TrimmedLabels` keeps both, as the source does. After that, the model reads such a label through its first column, while the source gets a two-column frame from `df[col]`:
- RowFilter.FilterData: where the source raises `AttributeError` at appy.py:277, 282 or 290 (`.astype(str).str` on a frame), the model filters on the first of the equal columns.
- Totals.Total: where the source raises `TypeError` at appy.py:316 (`pd.to_numeric` on a frame), the model sums the first of the equal columns.
- CrossCheck.Compare: where the source fails at appy.py:738-739 on a repeated key label, the model normalises and joins on the first column of that label.
- `isinstance(serie, pd.DataFrame)` at appy.py:260 (duplicate labels in the drop-down column) is covered by the same first-column reading.
- The cross-check merge models row pairs in A's order. Column suffixes `_A`/`_B` and pandas' exact row order of the merged frame are not modelled.
- Exceptions are not modelled:
  - a date conversion that raises (appy.py:303-304, 196-197);
  - a failed export write (appy.py:228-229);
  - the catch-all of appy.py:249-251 for unreadable uploads.
- At appy.py:240 the error message shown before the session's table is returned is not modelled.
- I/O and UI are not modelled: reading uploads, `guardar_excel`, `cargar_excel`, `guardar_fecha_actualizacion`, `st.session_state`, `glob`/`os.remove` of old workbooks, the output file name, and the Streamlit widgets and messages. The uploads, the session's table and the saved table are parameters.
- EnrichmentProperties.EnrichedLabels: stated only for a table 1 without a column already named `_temp_code`, `_temp_name` or `__Valor_Encontrado__` (`NoWorkingLabels`); `Enriched` and `Enrich` themselves need no such assumption.
- EnrichmentProperties.EnrichedRow: the same `NoWorkingLabels` assumption.
- EnrichmentProperties.KeysLabels, EnrichmentProperties.KeysLabelsFor, EnrichmentProperties.KeysRow, EnrichmentProperties.FoundLabels, EnrichmentProperties.FoundRow, EnrichmentProperties.UnitLabels, EnrichmentProperties.UnitRow, EnrichmentProperties.QuantityRow, EnrichmentProperties.TotalLabels, EnrichmentProperties.TotalRow: each is stated only under the same `NoWorkingLabels` assumption.
- EnrichmentProperties.TotalLost: the same `NoWorkingLabels` assumption.
- EnrichmentProperties.UnitOverwrittenByTotal: the same `NoWorkingLabels` assumption.
- Normalizer.StripProfessionalPrefix: the leading code of `^\d+\s*[-]?\s*` (appy.py:107, 200) is matched on the ASCII digits 0-9 only (`IsDigit`). Python's `\d` matches every Unicode decimal digit, so a name such as "１２ - Ana" loses its code in the source and stays as it is in the model. The same holds for `Normalizer.DropDigits` and `Normalizer.StripCodePrefix`.
- Cells.AsText: `astype(str)` is rendered as it is for an object column: a date becomes "YYYY-MM-DD 00:00:00" and a gap "nan". For a `datetime64` column, which `read_excel` gives a column holding only dates, pandas writes "YYYY-MM-DD" and "NaT". Where such a column serves as the cross-check key (appy.py:738-739), as drop-down values (appy.py:261) or as code and name keys (appy.py:122-126), the model may match texts the source keeps apart. For example, a key "Fecha" that is all dates in one workbook and mixed in the other gives "2024-01-05" against "2024-01-05 00:00:00" in the source, but equal texts in the model.
- ExportSanitizer.Exported, ExportSanitizer.Export, Consolidation.Merge, Consolidation.Load, Consolidation.WorkbookIffLookup: the workbook carries the corrected header (trim, then dedup), not the header of appy.py:186-187 as written (see Findings). As written, two labels that trimming makes equal both survive. For object columns such as "Nombre" and "Nombre ", `df_export["Nombre"].dtype` at appy.py:205 then raises on the two-column frame. The error is caught at appy.py:228-229 and no workbook is written. For date columns such as "Fecha" and "Fecha ", the conversion at appy.py:194 fails, appy.py:196-197 swallow the error, and the workbook is written with "Fecha" twice. The model writes one such column, and `WorkbookIffLookup` proves its header distinct.
- Consolidation.Load: stacking builds a new `DataFrame`, as `pd.concat` does; the in-place cleanup of names happens on the first upload's frame.

## Findings

| source | as written | input that shows it | evidently intended | confidence | as-written member | corrected member |
|---|---|---|---|---|---|---|
| appy.py:186-187 | duplicate labels are dropped before the header is trimmed | labels ["Nombre", "Nombre "] both survive the dedup and become "Nombre" twice | an exported header whose labels are trimmed and distinct | not executed | ExportSanitizer.HeaderAsWrittenCollides | ExportSanitizer.Header |

The export in the model uses the corrected `Header` (trim, then dedup).
