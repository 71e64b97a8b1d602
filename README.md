# Keyword sum over a spreadsheet, in Dafny

This project models the keyword-sum core of `ExcelSumApp.calculate_sum` in
`main.py` and proves properties of it. The user selects a workbook and types a
keyword. The program then:

- scans the whole sheet for the product-name header ("등록상품명" / "상품명",
  but not a cell containing "id") and the cost header ("할인적용가(A-B)" and
  its variants). The last qualifying cell wins.
- treats every row below the lower header row as data.
- selects the data rows whose product name matches the keyword. The keywords
  "hdd" and "ssd" use a category rule: the category token, or else one of a
  fixed list of model codes.
- counts the selected rows, sums their coerced costs, and lists the selected
  rows. `show_debug` later filters that list down to the rows that only a model
  code selected.

Modules:

- `Wrappers` (`wrappers.dfy`): `Option` and `Result`.
- `Text` (`text.dfy`): the normaliser `norm` and its character-wise reference
  definition. Also the substring test behind Python's `in` and
  `str.contains`, and `str.strip`.
- `Cost` (`cost.dfy`): the cost coercer `to_number`. It deletes `,`, space,
  `₩` and `원`, skips the ASCII whitespace `pd.to_numeric` skips around a
  number, then parses an optional sign followed by digits; anything else is
  absent.
- `Headers` (`headers.dfy`): the header cell tests, and the last-match-wins
  scan as an imperative method (`LocateHeaders`, with `ScanRow` for each row's
  inner loop). Both are proved against a recursive specification `LastMatch`.
- `Rows` (`rows.dfy`): the generic, "hdd" and "ssd" rules as boolean masks,
  the counts and the sum. Also a row-by-row reference classification and the
  loop that collects the listed rows.
- `App` (`app.dfy`): `calculate_sum` end to end as the function `Compute`. The
  class `SumApp` holds the selected sheet, the result label and the listed
  rows, and has the methods `LoadExcel`, `CalculateSum` and `ShowDebug`.
- `Example` (`example.dfy`): a worked sheet and the outcome of "hdd" on it.
- `Findings` (`findings.dfy`): three behaviours of the code as written, each
  shown next to the corrected model.

Modelling choices:

- The sheet is a `seq<seq<Option<String>>>`. `None` is an empty cell, and a
  row shorter than the sheet reads as empty past its end.
- The test `\s` and `str.strip` use Python's whitespace set (`IsSpace`).
- `str.lower` is modelled for ASCII letters only.
- For generic keywords the code matches with plain `.lower()` on the name,
  without the whitespace and bracket normalisation of `norm`. The model
  follows the code.
- An empty name cell reads as "" in `Compute` (`App.NameText`), the evidently
  intended reading of main.py:141-148. The as-written "nan" is modelled by
  `Findings.NameTextAsWritten` and recorded under "## Findings".
- The worked example ("hdd" on a sheet with headers in row 2 and two products
  below) does not produce 215,000 as written: the second "hdd" loop raises an
  error. The model follows the corrected code and records the as-written
  behaviour under "## Findings".

## Model

| member | source | states |
|---|---|---|
| Text.Norm | main.py:79-85 | computes `norm` as its four passes (full-width parentheses, brackets, `\s+`, lower case); what it yields is stated by `NormMatchesRef`, `NormIsNormal` and the lemmas below |
| Text.NormIsNormal | main.py:79-85 | the normalised text contains no whitespace, no `[` or `]`, no full-width parenthesis and no upper-case ASCII letter |
| Text.NormCell | main.py:110-111 | an empty cell normalises to "", and every character of a normalised cell is one `norm` keeps: no whitespace, bracket, full-width parenthesis or upper-case ASCII letter |
| Text.LowerChar | main.py:85 | lower-casing leaves no upper-case letter, maps `A`-`Z` into `a`-`z` and keeps every other character |
| Text.DeleteChar | main.py:83 | deleting a character leaves only characters of the input, none of them the deleted one |
| Text.DeleteSpaces | main.py:84 | removing `\s+` runs leaves only non-space characters of the input |
| Text.NormMatchesRef | main.py:82-85 | the pass-by-pass normaliser equals the character-by-character reference `NormRef` on every input |
| Text.NormSingle | main.py:82-85 | on one character `norm` drops spaces and brackets, maps `（`/`）` to `(`/`)` and lower-cases the rest |
| Text.NormConcat | main.py:82-85 | `norm` distributes over concatenation |
| Text.NormIdempotent | main.py:79-85 | normalising twice gives the same text as normalising once |
| Text.NormOfNormal | main.py:79-85 | text made only of characters `norm` keeps is its own normal form |
| Text.NormJoinsAroundSpace | main.py:84 | a whitespace character between two pieces of otherwise normal text is removed and nothing else changes (the label "할인 적용가") |
| Text.NormIntroducesNothing | main.py:82-85 | a non-ASCII character absent from the input is absent from the normalised text (with the ASCII-only lowering of `Text.LowerChar`) |
| Text.ContainsIff | main.py:118 | the substring test holds exactly when the pattern occurs at some offset |
| Text.ContainsTransitive | main.py:118 | a substring of a substring of a text is a substring of the text |
| Text.NotContainsMissingChar | main.py:116 | a pattern with a character the text lacks does not occur in it |
| Text.ContainsPrefix | main.py:124 | a prefix of the text occurs in it |
| Text.StripLeftSpec | main.py:73 | `lstrip` removes an all-space prefix and leaves a non-space first character or nothing |
| Text.StripRightSpec | main.py:73 | `rstrip` removes an all-space suffix and leaves a non-space last character or nothing |
| Text.Strip | main.py:73 | the stripped keyword is a slice of the entry between all-space margins, with non-space ends |
| Text.StripIdempotent | main.py:149 | stripping an already stripped keyword changes nothing |
| Cost.ParseInt | main.py:93 | parses an optional sign followed by at least one decimal digit, and nothing else; its round trip with printing is `ParseShowRoundTrip` |
| Cost.ParseNumeric | main.py:93 | `pd.to_numeric` on one string: ASCII whitespace around the number is skipped, then `ParseInt` decides |
| Cost.ToNumber | main.py:87-93 | `to_number` on one cell: the four deletions, then `ParseNumeric`, with a failed parse giving no cost (`errors="coerce"`); its properties are the lemmas below |
| Cost.StripCostMarks | main.py:88-92 | after the four deletions no `,`, space, `₩` or `원` remains, and every remaining character came from the cell |
| Cost.StripCostMarksSingle | main.py:88-92 | a single character is deleted exactly when it is a cost mark |
| Cost.StripCostMarksConcat | main.py:88-92 | the deletions distribute over concatenation |
| Cost.StripCostMarksOfDigits | main.py:88-92 | a plain numeral passes the deletions unchanged |
| Cost.DigitsValueOfShowNat | main.py:93 | the value of a printed natural number is that number |
| Cost.ParseShowRoundTrip | main.py:93 | parsing a printed integer gives the integer back |
| Cost.StripGrouped | main.py:88-92 | deleting the separators of a thousands-grouped amount leaves its plain numeral |
| Cost.ToNumberOfWonAmount | main.py:87-93 | an amount written like "120,000원" coerces to that amount |
| Cost.ToNumberOfNumeral | main.py:87-93 | a printed integer coerces to itself |
| Cost.TrimAsciiPadded | main.py:93 | trimming removes exactly the ASCII whitespace around text that neither starts nor ends with it |
| Cost.TrimKeeps | main.py:93 | a character that is not ASCII whitespace survives trimming |
| Cost.ParseShownNat | main.py:93 | a printed natural number is unpadded and parses back to itself |
| Cost.ToNumberIgnoresAsciiPadding | main.py:87-93 | tabs, line breaks and other ASCII whitespace around a cell do not change its coerced cost |
| Cost.ToNumberOfPaddedWonAmount | main.py:87-93 | an amount like "95,000원" followed or preceded by ASCII whitespace coerces to the amount |
| Cost.ToNumberIgnoresMark | main.py:88-92 | inserting a separator or currency mark anywhere does not change the coerced cost |
| Cost.NonNumericIsAbsent | main.py:93 | a cell that keeps a character other than a digit, a sign or ASCII whitespace after cleaning is absent, not an error |
| Cost.EmptyCellIsAbsent | main.py:88-93 | an empty cell ("nan" after `astype(str)`) has no cost |
| Headers.LastMatch | main.py:109-125 | the last qualifying position in row-major order, found from the bottom row up; characterised by `LastMatchSpec` |
| Headers.LastInRowSpec | main.py:115-125 | the row scan finds nothing exactly when no cell qualifies, and otherwise a qualifying cell with none after it |
| Headers.LastMatchSpec | main.py:109-125 | last match wins: no position exactly when no cell qualifies, otherwise a qualifying cell after which no cell qualifies in row-major order |
| Headers.NameHeaderHasNoId | main.py:115-118 | the chosen product-name header never contains "id" once normalised |
| Headers.ScanRow | main.py:115-125 | the inner loop over one row ends with that row's last qualifying column, or the previous choice if none qualifies |
| Headers.LocateHeaders | main.py:105-125 | the nested scan ends with the last qualifying name cell and the last qualifying cost cell of the whole sheet |
| Headers.AnyLabelInIff | main.py:118 | a cell matches the label list exactly when it contains one of its labels |
| Headers.LabelOrderIrrelevant | main.py:118-124 | reordering a label list does not change which cells qualify |
| Headers.NormalisedNameLabel | main.py:102 | the name labels are already normal: `norm` leaves them unchanged |
| Headers.NormalisedCostLabel | main.py:103 | `norm` of each cost label is the label used by the test; "할인 적용가" loses its space |
| Headers.NameTextIff | main.py:115-118 | a cell is a name header exactly when it lacks "id" and contains "상품명" |
| Headers.CostTextIff | main.py:123-124 | a cell is a cost header exactly when it contains "할인적용가" |
| Rows.SelectRule | main.py:149-161 | "hdd" and "ssd" after strip and lower select their category; every other keyword is generic and keeps its lower-cased form |
| Rows.Dedup | main.py:175 | `dict.fromkeys` keeps exactly the codes of the list, each once |
| Rows.DedupKeepsMatches | main.py:175-177 | removing duplicate codes does not change which names match |
| Rows.AnyCodeInIff | main.py:176-177 | the escaped alternation matches exactly when some code, lower-cased, occurs in the lower-cased name |
| Rows.FinalMaskIsClassified | main.py:179-180 | the final mask, the category mask and the model-only mask select exactly the rows the reference classification selects, tags HDD/SSD, and tags model-code |
| Rows.Summarize | main.py:179-186 | the reported total, matched count and, for "hdd"/"ssd", the category and model-only counts, taken from the masks; proved equal to a row-by-row tally by `SummarizeMatchesTally` |
| Rows.SummarizeMatchesTally | main.py:183-186 | the mask counts and the masked sum equal a row-by-row tally of classified rows and their present costs |
| Rows.CountOfDisjointOr | main.py:183-185 | the union of two disjoint masks counts the sum of their counts |
| Rows.SumOfDisjointOr | main.py:186 | the union of two disjoint masks sums the sum of their sums |
| Rows.CategoryPartition | main.py:179-186 | final = category ∪ model; matched count = category count + model-only count; the total splits the same way |
| Rows.CountIsCardinality | main.py:185 | `mask.sum()` is the number of selected rows |
| Rows.GenericCount | main.py:281-283 | for a generic keyword the matched count is the number of data rows whose lower-cased name contains the keyword |
| Rows.AllItemsSpec | main.py:207-209 | the collected items are the selected rows in increasing row order, each with its own name, costs and reason |
| Rows.CategoryReasons | main.py:266-268 | a listed row's reason is the category tag when its name contains the token and "모델코드" otherwise |
| Rows.SelectedItems | main.py:266 | the listed rows are a prefix of all selected rows |
| Rows.SelectedItemsCount | main.py:189 | the list holds all selected rows up to 300 and exactly 300 beyond that |
| Rows.CollectSelected | main.py:266-268 | the collection loop lists the first 300 selected rows with their reasons |
| Rows.ModelOnlyItems | main.py:305 | the filter keeps at most as many items as it is given, each one selected through a model code |
| Rows.ModelOnlyItemsFromInput | main.py:305 | the filter keeps only items of its input |
| Rows.ReasonTextIsModelCode | main.py:305 | the reason string is "모델코드" exactly for rows selected by a model code, whatever keyword was typed |
| Rows.ModelOnlyCount | main.py:302-305 | for any classification, the model-code filter keeps exactly one item per row classified as a model-code hit |
| Rows.ModelOnlyOfAllItems | main.py:302-305 | over the full, uncapped listing of selected rows, the filter keeps one item per model-only row for a category keyword and nothing for a generic one |
| Rows.ModelOnlyOfSelected | main.py:302-305 | over the listing capped at 300 (main.py:189, 266), the filter keeps a prefix of the model-only rows; when at most 300 rows matched it keeps all of them, one item per model-only row for a category keyword and none for a generic one |
| Rows.ModelOnlyOfPrefix | main.py:305 | filtering a prefix of a listing keeps a prefix of the filtered listing |
| App.Preview | main.py:128 | the error preview is a prefix of the sheet holding exactly its first 12 rows, or the whole sheet when it is shorter |
| App.DataStart | main.py:137 | data starts right below the lower of the two header rows |
| App.NameText | main.py:141-148 | reads a name cell as its text and an empty cell as "" (the corrected reading); that no rule with a non-empty keyword then selects the row is `Findings.EmptyNameNeverSelected` |
| App.MakeRow | main.py:141-142 | one data row: its name, its raw cost text and its coerced cost, read from the header columns |
| App.DataRows | main.py:137-142 | one data row per sheet row from the data start on, in order, the k-th built from sheet row start + k |
| App.Compute | main.py:64-299 | `calculate_sum` as a value: a failure, or the summary and listed rows; characterised by `ComputeFailures` and `ComputeSuccess` |
| App.ComputeFailures | main.py:68-134 | the run fails exactly when no file is selected, the stripped keyword is empty, or one header is missing, and the header error shows the preview |
| App.ComputeSuccess | main.py:137-186 | a successful run uses rows strictly below qualifying headers and reports the reference tally and the first selected rows |
| App.ComputeIgnoresSurroundingSpace | main.py:73 | a keyword typed with surrounding blanks gives the same outcome |
| App.SumApp.constructor | main.py:11-13 | the application starts with no file, no result and no list |
| App.SumApp.LoadExcel | main.py:54-60 | a chosen file replaces the selection and a cancelled dialog keeps it |
| App.SumApp.CalculateSum | main.py:64-299 | the outcome is `Compute` on the selected sheet; on success the result and the list are replaced, otherwise both are kept |
| App.SumApp.ShowDebug | main.py:302-305 | the filter loop yields the listed rows whose reason is "모델코드", or nothing before the first list exists |
| Example.SheetHeaders | main.py:109-125 | on the worked sheet the scan picks (2, 0) for the name and (2, 3) for the cost |
| Example.WdCostWithLineBreak | main.py:87-93 | "95,000원" followed by a line break coerces to 95000 |
| Example.SeagateCostValue | main.py:87-93 | "120,000원" coerces to 120000 |
| Example.TwoRows | main.py:179-209 | a token row and a model-code row tally 2 rows, 1 + 1, and the sum of both costs, and are listed in order |
| Example.HddOnSheet | main.py:161-209 | "hdd" on the worked sheet matches 2 rows totalling 215,000, one HDD row and one model-code row |
| Findings.NameTextAsWritten | main.py:141 | as written, an empty name cell reads "nan" |
| Findings.NanNameIsMatched | main.py:141-148 | as written, "n" selects a nameless row and adds its cost; corrected, it selects nothing |
| Findings.EmptyNameNeverSelected | main.py:148 | corrected, a nameless row is selected by no rule with a non-empty keyword |
| Findings.LastRowSelectedFails | main.py:151-158 | as written, a generic or "hdd" run with at most 300 selected rows, the last data row among them, ends in an IndexError |
| Findings.HddListsTwice | main.py:207-215 | as written, a successful "hdd" listing is the selected rows followed by the same rows again, each second copy with its reason read from the `mask_hdd` flag at the position equal to its label |
| Findings.HddOnSheetAsWritten | main.py:212-215 | as written, "hdd" on the worked sheet's data rows ends in an IndexError |

## Left out

- The tkinter window, buttons, entry, file dialog, message boxes, result-label
  text and popup layout are not modelled. Results and failures are values.
- `pd.read_excel` is not modelled. The selected workbook is given as the sheet
  it holds, with every cell as text. How pandas prints numbers and dates, and
  read failures caught by the catch-all handler, are not modelled.
- Cost.ParseInt: accepts only an optional sign and decimal digits, with the
  surrounding ASCII whitespace skipped by `Cost.ParseNumeric`. The decimals,
  exponents, "inf" and "nan" spellings that `pd.to_numeric` also accepts are
  absent here, because costs are modelled as integers.
- Floating-point sums and the `{total:,.0f}` rounding are not modelled.
  Totals are exact integers.
- Text.LowerChar: lower-cases ASCII only. Full Unicode case folding is not
  modelled.
- Regular expressions are not modelled as an engine. `\s+` removal is a
  character filter. The escaped alternation is "some code occurs, ignoring
  case".
- The code lists are used as written. `Rows.DedupKeepsMatches` shows that the
  `dict.fromkeys` step does not change the outcome.
- `debug_all` is never read, so its collection loops are not modelled.
- The unused `_norm`, `_to_number_series`, `_log` and `last_log` are not
  modelled.
- App.SumApp.CalculateSum: models the corrected code. The as-written
  IndexError, and the partial list it leaves behind, are in `Findings` only.
- Re-running a calculation gives the same outcome, because `Compute` is a
  function. No separate lemma states this.

## Findings

| source | as written | input that shows it | evidently intended | confidence | as-written member | corrected member |
|---|---|---|---|---|---|---|
| main.py:141-148 | `astype(str)` runs before `fillna("")`, so an empty name cell is already "nan" and the fill does nothing | a data row with an empty name and cost "5000", keyword "n": 1 row and 5000 instead of none | empty names read as "" and match no keyword | medium, not executed | Findings.NanNameIsMatched | Findings.EmptyNameNeverSelected |
| main.py:151-158 | the generic `row_item` reads `iloc[idx]` with `idx` a sheet label, so it reads a row further down, or raises IndexError once `idx` reaches the number of data rows | any sheet whose last data row contains a generic keyword (at most 300 matches): IndexError, and an error dialog instead of the total | look the row up by label with `loc`, as the "ssd" branch does | high, not executed | Findings.LastRowSelectedFails | Rows.AllItemsSpec |
| main.py:212-215 | the second "hdd" selection loop tests `mask_hdd.iloc[idx]` with a label, and appends every selected row a second time | the worked sheet (headers in row 2, data rows 3 and 4), keyword "hdd": `mask_hdd.iloc[3]` on two rows raises IndexError, and no total is shown | list each selected row once, as the loop at main.py:207-209 already does | high, not executed | Findings.HddOnSheetAsWritten | Example.HddOnSheet |
