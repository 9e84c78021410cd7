# Nonprofit data platform: query building and data cleaning, in Dafny

This project models the parts of the nonprofit data platform's backend that decide what reaches the
database. That covers the SQL text and parameter lists the search, filter and export endpoints build.
It also covers how the data pipeline turns the four-row header of the IRS spreadsheet export into
column names. The project proves properties of that model.

Modules, one per source file:

- `Wrappers`: `Option` and `Result`.
- `PyText`: the Python string operations the code relies on. These are `strip`, ASCII `upper`/`lower`,
  `split`/`join`, substring tests, `str(int)` and `int(str)`.
- `Values`: the Python values a JSON request or a DataFrame cell holds, with the following:
  - truthiness;
  - `dict.get`;
  - `float()`/`int()`;
  - the parameters handed to sqlite;
  - a count of `?` placeholders in SQL text.
- `Helpers` (`backend/utils/helpers.py`): pagination clamping, the field whitelist test, the
  keyword-based SQL input sanitiser, and the mapping of database errors to codes.
- `DataPipeline` (`backend/data_pipeline.py`), covering both its parts:
  - the header processing: forward fill of sections, line numbers, name building and sanitising, and
    fitting names to the data width;
  - the cleaning: dropping the first column by label, renaming repeats, dropping blank names, and
    replacing the `nonprofits` table.
- `Filter` (`backend/api/filter.py`):
  - `build_sql_condition`, for every operator;
  - the body of `advanced_filter`: the mandatory fiscal year, the optional month, the geographic,
    financial and operational groups, and the final statement.
- `Search` (`backend/api/search.py`):
  - `search_nonprofits`: the whitelist loop, the LIKE conditions and the ranking parameters;
  - the way `search_api` parses `fields`, previews on a blank query or searches by keyword;
  - `advanced_search`: seven optional criteria and a `LIMIT ?`.
- `Export` (`backend/api/export.py`): the WHERE/LIMIT construction of `get_export_data`, and the way the
  export endpoints turn an empty result into an error.
- `EmergencyFix` (`backend/emergency_fix.py`): the fallback loader, as a `Frame` class updated in place.
  It renames wide tables, adds default fiscal year and month columns, and then scans the first
  fiscal-looking column row by row.

The loops of the source are methods with loop invariants. Each method is proved equal to a function
that specifies it, such as `AdvancedFilter`/`FilterQuery`, `SearchNonprofits`/`SearchStatement` or
`DeduplicateNames`/`Deduplicated`. The lemmas state what the source promises about those functions:
- every statement has exactly as many placeholders as it has parameters;
- only whitelisted fields are searched;
- repeats are renamed with their count;
- sanitised names are clean, and sanitising twice changes nothing;
- errors become the status codes the handlers actually return.

Behaviour the model keeps exactly as the code has it, even where a reader might expect otherwise:

- Sections, descriptions and periods in the header are used untrimmed; only line numbers are stripped
  (`backend/data_pipeline.py:44-83`). A period written ` CY` therefore adds no `_cy` suffix, and the
  sanitiser alone cleans the rest.
- De-duplication counts repeats of the original names only. The result is not always unique:
  `a, a, a_1` becomes `a, a_1, a_1` (`DeduplicatedCanCollide`), and writing such a table fails
  (`backend/data_pipeline.py:155-193`). A repeated blank name becomes `_1` and survives the blank-name
  drop (`DeduplicatedBlankRepeat`, `backend/data_pipeline.py:170-174`).
- The pipeline has no fiscal-date parser (`backend/data_pipeline.py:111-193`). Fiscal year and month come
  only from the emergency loader (`backend/emergency_fix.py:47-75`).
- `advanced_filter` raises 400 without a fiscal year (`backend/api/filter.py:89-93`). Its own
  `except Exception` turns that into 500 (`backend/api/filter.py:149-152`, `MissingYearIsServerError`).
- The export endpoints raise 404 on an empty result inside their `try` (`backend/api/export.py:67-68`).
  The `except Exception` turns it into 500 (`backend/api/export.py:89-90`, `ExportEndpoint`).
- `search_api` accepts `employees` and `part_i_summary_12_total_revenue_cy` as fields.
  (`backend/api/search.py:96-100`). `search_nonprofits` does not (`backend/api/search.py:18-31`), so a
  request naming only such fields fails with 500 (`backend/api/search.py:133-134`, `ExtraFieldSearchFails`).
- In the emergency loader (`backend/emergency_fix.py:39-75`), a table of at most 20 columns keeps integer labels. `col.lower()` then
  raises, so the repair reports failure (`NarrowTableFails`). In a wider table the first column that
  looks fiscal is the freshly added `fiscal_year`, so every row keeps the defaults 2023 and 12
  (`WideTableScansFiscalYear`, `Frame.Repair`).

## Model

| member | source | states |
|---|---|---|
| Helpers.ValidatePaginationParams | backend/utils/helpers.py:15-35 | The page is at least 1 and an in-range page is kept. A page size below 1 becomes the default 10, or the maximum when that is smaller. A size above the maximum becomes the maximum, and an in-range one is kept. The offset is `(page - 1) * page_size` and is non-negative. |
| Helpers.PaginationIdempotent | backend/utils/helpers.py:15-35 | Validating an already validated page and size returns them unchanged. |
| Helpers.ValidateFieldName | backend/utils/helpers.py:87-98 | True exactly when the field is one of the allowed names. |
| Helpers.SanitizeSqlInput | backend/utils/helpers.py:100-124 | Empty input, or input whose upper-case form contains a dangerous keyword anywhere, gives the empty string. Any other input comes back with its surrounding whitespace stripped. |
| Helpers.KeywordInStripped | backend/utils/helpers.py:114-124 | A keyword found after stripping was already present in the input. |
| Helpers.SanitizeSqlInputIdempotent | backend/utils/helpers.py:100-124 | Sanitising a sanitised string changes nothing. |
| Helpers.SubstringKeywordRejected | backend/utils/helpers.py:114-122 | Keywords match as substrings, so the harmless word `updated` is rejected. |
| Helpers.HandleDatabaseError | backend/utils/helpers.py:181-210 | The response is never a success. Its code is `TABLE_NOT_FOUND` exactly when the lower-cased message mentions `no such table`. Otherwise it is `DATABASE_LOCKED` exactly when the message mentions `database is locked`. Otherwise it is `DATABASE_ERROR`. |
| Values.Get | backend/api/filter.py:79-83 | `dict.get` gives the stored value for a present key and `None` for an absent one. |
| Values.Truncate | backend/api/filter.py:120-125 | `int()` of a float truncates toward zero. |
| DataPipeline.SanitizeName | backend/data_pipeline.py:6-12 | Every result is a clean name. It holds only `[a-z0-9_]`, has no underscore at either end, and never has two underscores in a row. |
| DataPipeline.CollapseUnderscores | backend/data_pipeline.py:11 | No double underscore survives. The ends and the character set are kept, and a text without runs is unchanged. |
| DataPipeline.SanitizeNameKeepsClean | backend/data_pipeline.py:6-12 | A name that is already clean is its own sanitisation. |
| DataPipeline.SanitizeNameIdempotent | backend/data_pipeline.py:6-12 | Sanitising twice equals sanitising once. |
| DataPipeline.FilledSectionIsNearest | backend/data_pipeline.py:40 | The forward-filled section of a column is the nearest section given at or before it. It is missing exactly when no column up to it has one. |
| DataPipeline.ForwardFill | backend/data_pipeline.py:40 | The filled row holds, at every column, that nearest section. |
| DataPipeline.ReadHeader | backend/data_pipeline.py:27-33 | The header block reads exactly when the file has at least five rows and those rows read as a frame. It then has one column per cell of the first row, at least one. Column `i` takes its section, line number, description and period from rows 2 to 5, missing where a row is shorter. |
| DataPipeline.ReadFrame | backend/data_pipeline.py:93 | The data block reads exactly when it is non-empty, its first row is non-empty, and no row is longer than the first. Every cell is then kept, and shorter rows are padded with missing cells. |
| DataPipeline.IsPureNumeric | backend/data_pipeline.py:14-18 | A pure numeric cell is present and its text reads as a non-negative integer. |
| DataPipeline.NumeralIsPureNumeric | backend/data_pipeline.py:14-18 | The decimal text of any natural number is pure numeric and is its own line number. |
| DataPipeline.SignedIsNotPureNumeric | backend/data_pipeline.py:14-18 | A negative numeral is not pure numeric. |
| DataPipeline.FloatTextIsNotPureNumeric | backend/data_pipeline.py:14-18 | A whole number written as a float, such as `1.0`, is not pure numeric. |
| DataPipeline.LineNumbers | backend/data_pipeline.py:44-49 | The line-number row holds one entry per header column: the stripped digits when the cell is purely numeric, the empty string otherwise. |
| DataPipeline.PresentParts | backend/data_pipeline.py:60-63 | The parts of a name are exactly the non-empty ones among section, line number and description, in that order. |
| DataPipeline.NameOfColumn | backend/data_pipeline.py:66-86 | A column's name is the sanitised join of its present parts plus its period suffix. A column with no parts gets the positional placeholder. |
| DataPipeline.ColumnName | backend/data_pipeline.py:56-87 | Every generated column name is clean. |
| DataPipeline.BaseNameOfThree | backend/data_pipeline.py:66-74 | With section, line and description all present, the base name is the three joined by underscores. |
| DataPipeline.FullColumnName | backend/data_pipeline.py:56-87 | A column with a filled section, a numeric line and a description is named by sanitising `section_line_description` followed by the suffix its period gives. |
| DataPipeline.PlaceholderColumnName | backend/data_pipeline.py:66-83 | A column with none of the three parts is named `column_<i>` plus its period suffix. |
| DataPipeline.PlaceholderIsClean | backend/data_pipeline.py:66-86 | The placeholder names, with or without `_cy`/`_py`, are already clean. |
| DataPipeline.HeaderNames | backend/data_pipeline.py:56-87 | One name per header column. |
| DataPipeline.BuildColumnNames | backend/data_pipeline.py:56-87 | The naming loop yields exactly the names of the header columns, in order. |
| DataPipeline.FitToWidth | backend/data_pipeline.py:96-103 | Exactly `width` names. The given names are kept where they fit, and missing positions get `extra_column_<i>`. |
| DataPipeline.AdjustColumnCount | backend/data_pipeline.py:96-103 | The adjusting loop computes that fitted list. |
| DataPipeline.ProcessFourRowSemanticHeader | backend/data_pipeline.py:20-109 | Success means both the header and the data read, and the table is their names fitted to the data width over the data rows. Failure means one of the reads failed. |
| DataPipeline.DropColumnsWhere | backend/data_pipeline.py:143-147 | A column survives exactly when its name does not satisfy the test. Because the drop is by label, every column carrying a dropped name goes. The `j`-th surviving column is the original column `Origin(j)`, and in every row the `j`-th cell is that column's cell. |
| DataPipeline.Survivors | backend/data_pipeline.py:170-174 | A column is kept exactly when its name does not satisfy the drop test. |
| DataPipeline.SelectAt | backend/data_pipeline.py:143-147 | The `j`-th selected element is the one at the `j`-th kept position. |
| DataPipeline.OriginIncreasing | backend/data_pipeline.py:143-147 | Dropping columns keeps the order of the surviving ones. |
| DataPipeline.OriginOnto | backend/data_pipeline.py:143-147 | Every kept column appears in the result. |
| DataPipeline.DeduplicateNames | backend/data_pipeline.py:155-169 | The loop with its `seen` counts computes the renaming `Deduplicated`. |
| DataPipeline.DeduplicatedRenamesRepeats | backend/data_pipeline.py:155-169 | A first occurrence keeps its name. A repeat gets `_n`, where `n` counts the equal names before it. |
| DataPipeline.DeduplicatedDistinct | backend/data_pipeline.py:155-169 | When no original name already ends in `_<digits>`, the renamed names are pairwise distinct. |
| DataPipeline.DeduplicatedCanCollide | backend/data_pipeline.py:155-169 | Without that condition names can collide: `a, a, a_1` becomes `a, a_1, a_1`. |
| DataPipeline.DeduplicatedBlankRepeat | backend/data_pipeline.py:155-175 | A repeated blank name becomes `_1`, which the blank-name drop keeps. |
| DataPipeline.CleanTable | backend/data_pipeline.py:143-175 | After cleaning, no column name is blank, the row count is kept, and rows stay aligned with the columns. |
| DataPipeline.CleanColumns | backend/data_pipeline.py:139-175 | Dropping the first column, renaming repeats and dropping blank names compute `CleanTable`. |
| DataPipeline.RunDataPipeline | backend/data_pipeline.py:111-193 | A missing file returns before touching the database. A failed read leaves the database unchanged. Otherwise the file's table is cleaned. When SQLite can create that table, it replaces the `nonprofits` table and nothing else changes. When it cannot, the old `nonprofits` table is gone and the other tables are unchanged. |
| DataPipeline.CollidingNamesNotWritable | backend/data_pipeline.py:155-193 | Names that collide after renaming, as `a, a, a_1` do, cannot be written. |
| Filter.ParseOperator | backend/api/filter.py:21-70 | An operator is recognised exactly when it is one of the supported names, and it maps back to that name. |
| Filter.ParseOperatorName | backend/api/filter.py:21-70 | Every operator's name parses back to that operator. |
| Filter.QMarks | backend/api/filter.py:40-51 | The `?,?,...` list of an IN test carries exactly `n` placeholders. |
| Filter.ConditionParams | backend/api/filter.py:21-70 | Each operator binds as many parameters as it takes: the list's length for `in`/`not_in`, two for `between`, none for the null tests, one otherwise. |
| Filter.OperatorCondition | backend/api/filter.py:32-70 | Only `between` without a two-element list fails. Otherwise the SQL has one placeholder per bound parameter, beyond any in the field name. |
| Filter.BuildSqlCondition | backend/api/filter.py:21-70 | The result is an error exactly for an unsupported operator, or for `between` without a two-element list. Otherwise the fragment's placeholders match its parameters, and those are the operator's parameters. |
| Filter.BuildSqlConditionDispatches | backend/api/filter.py:21-70 | Building from an operator's name is building from that operator. |
| Filter.EqualsIsCaseInsensitiveForStrings | backend/api/filter.py:32-35 | `equals` compares with `UPPER(...) = UPPER(?)` exactly when the value is a string, and never fails. |
| Filter.UpperEqualsIsNotCompare | backend/api/filter.py:32-35 | The case-insensitive equality is a different statement from every plain comparison. |
| Filter.Convert | backend/api/filter.py:110-125 | Numbers and booleans always convert, and null, lists and objects never do. `float()` gives a float and `int()` an integer, and a value of that kind is kept as it is. `float(n)` is exact and `int(x)` truncates a float toward zero. |
| Filter.ConvertIntText | backend/api/filter.py:120-125 | `int()` reads back the decimal text of every integer. |
| Filter.BoundPart | backend/api/filter.py:111-125 | A bound fails exactly when its value is not `None` and does not convert, naming the key. A missing bound adds nothing. Any other adds its condition, bound to the converted value. |
| Filter.AddGeoFilters | backend/api/filter.py:101-107 | Adds the state and city tests for truthy entries, in that order. A group that is not a dictionary fails. |
| Filter.AddBound | backend/api/filter.py:111-125 | Adds one bound whose value is not `None`, converted. |
| Filter.AddBounds | backend/api/filter.py:110-125 | Adds the low then the high bound of a truthy group. |
| Filter.AdvancedFilter | backend/api/filter.py:79-129 | The step-by-step build of conditions and parameters equals the request's specification `FilterQuery`. |
| Filter.MissingYearIsServerError | backend/api/filter.py:89-93 | Without a truthy fiscal year the request fails with 500, because the 400 is caught by the handler's own `except`. |
| Filter.GroupMustBeDictionary | backend/api/filter.py:101-102 | A truthy geographic group that is not a dictionary fails with 500. |
| Filter.PartsOnePlaceholderEach | backend/api/filter.py:88-125 | Every condition added carries exactly one placeholder and binds exactly one parameter. |
| Filter.FilterPlaceholdersMatch | backend/api/filter.py:85-129 | The final statement has as many placeholders as parameters, and as many as conditions. |
| Filter.FilterStartsWithYear | backend/api/filter.py:88-93 | A successful filter always starts with `fiscal_year = ?`, bound to the requested year. |
| Search.SearchNonprofits | backend/api/search.py:9-53 | The whitelist loop and the parameter extension produce exactly `SearchStatement`. |
| Search.SearchRejectsUnknownFields | backend/api/search.py:18-31 | The search fails exactly when no requested field is whitelisted, and then with status 400. |
| Search.SearchMatchesWhitelistedFields | backend/api/search.py:25-28 | A field gets a LIKE condition exactly when it was requested and is whitelisted. |
| Search.SearchParameters | backend/api/search.py:25-53 | Every LIKE binds `%query%`. These are followed by `query%` twice for the ranking and by the limit. |
| Search.SearchPlaceholdersMatch | backend/api/search.py:33-53 | The statement's placeholders equal its parameters. |
| Search.ParseFields | backend/api/search.py:91-100 | The parsed field list is never empty and holds only valid fields. |
| Search.ParseFieldsKeepsValidPieces | backend/api/search.py:91-100 | When some stripped piece is a valid field, a field is searched exactly when it is valid and named by a piece. When no piece is valid, the defaults are searched. |
| Search.ParseSingleField | backend/api/search.py:91-100 | A single valid field given alone is searched alone. |
| Search.PreviewSqlPlaceholders | backend/api/search.py:104-123 | The preview statement binds exactly its one limit parameter. |
| Search.SearchApi | backend/api/search.py:74-134 | A limit outside 1..1000 fails validation, and every other failure is a 500. The query is echoed empty exactly when it is blank, and as given otherwise. The field list is non-empty and holds only accepted fields. A blank query previews with the requested limit, and any other query runs the keyword search. |
| Search.LimitOutOfRangeRejected | backend/api/search.py:77 | A limit outside 1..1000 is rejected before the handler runs, and only such a limit is. |
| Search.BlankQueryPreviews | backend/api/search.py:87-123 | A blank or whitespace-only query returns the preview rows with an empty query. |
| Search.KeywordSearch | backend/api/search.py:125-134 | A non-blank query searches the parsed fields. It fails with 500 exactly when none of them is searchable. |
| Search.ExtraFieldSearchFails | backend/api/search.py:91-134 | Asking only for `employees` or `part_i_summary_12_total_revenue_cy` passes the endpoint's parsing but fails the search with 500. |
| Search.AddCriterion | backend/api/search.py:157-183 | A present criterion appends its condition and its value, an absent one nothing. |
| Search.AdvancedSearch | backend/api/search.py:136-194 | The step-by-step build equals the specification `AdvancedQuery`. |
| Search.AdvancedAddsExactlyGivenFilters | backend/api/search.py:157-183 | A criterion appears exactly when its request field is given: a non-empty string, or any number for year, month and income. |
| Search.AdvancedParamsAligned | backend/api/search.py:157-194 | The `j`-th parameter is the value of the `j`-th criterion, and the limit comes last. |
| Search.AdvancedPlaceholdersMatch | backend/api/search.py:185-194 | The statement's placeholders equal its parameters. |
| Search.NoFiltersSelectAll | backend/api/search.py:185-194 | With no criterion the WHERE clause is `1=1` and only the limit is bound. |
| Export.InCondition | backend/api/export.py:31-34 | `key IN (?,...)` has one placeholder per list element, beyond any in the key. |
| Export.EqCondition | backend/api/export.py:35-37 | `key = ?` has one placeholder beyond any in the key. |
| Export.GetExportData | backend/api/export.py:12-42 | The loop and the `+=` statement equal `ExportSql` over the filters, with the parameters in order. |
| Export.ExportPlaceholdersMatch | backend/api/export.py:24-42 | The statement has one placeholder per parameter, plus any the unchecked keys bring. |
| Export.PlainKeysMatch | backend/api/export.py:27-40 | With keys free of `?`, placeholders and parameters agree exactly. |
| Export.MissingValuesIgnored | backend/api/export.py:29-30 | An entry whose value is `None` adds neither a condition nor a parameter. |
| Export.OneConditionPerPresentEntry | backend/api/export.py:27-40 | One condition per present entry. A WHERE clause appears exactly when some value is not `None`. |
| Export.SingleEntry | backend/api/export.py:30-37 | A list becomes one IN test with its elements as parameters, and a scalar becomes one equality with itself. |
| Export.NoFiltersScanWithLimit | backend/api/export.py:24-42 | With no present filter the statement is the table scan with its LIMIT, and nothing is bound. |
| Export.ExportEndpoint | backend/api/export.py:56-90 | The endpoint succeeds exactly on a fetched, non-empty result and then returns it. Every failure is a 500. |
| Export.EmptyExportIsServerError | backend/api/export.py:67-68 | An empty result raises 404 inside the `try`, and the endpoint answers 500. |
| EmergencyFix.RenamedNames | backend/emergency_fix.py:39-43 | A table wider than 20 columns gets `id, campus, address, city, st, zip, ein` and then `col_k` at every later position `k`, one name per column. |
| EmergencyFix.FirstFiscal | backend/emergency_fix.py:51-56 | The scanned column, when one is found, is a column of the table. |
| EmergencyFix.YearIn | backend/emergency_fix.py:57-63 | A year read from a value is one of 2022, 2023 and 2024. |
| EmergencyFix.MonthIn | backend/emergency_fix.py:66-74 | A month read from a value is between 1 and 12. |
| EmergencyFix.MonthOfDate | backend/emergency_fix.py:66-74 | A value `m/...` with `m` an integer from 1 to 12 gives month `m`. |
| EmergencyFix.YearOfDate | backend/emergency_fix.py:57-63 | A date `m/y` gives the year `y` for each of 2022, 2023 and 2024, provided its month part `m` holds none of the three year texts. The sample dates `6/2023` and `12/2022` are of this form. |
| EmergencyFix.DefaultYearIsStable | backend/emergency_fix.py:47-74 | The default year 2023, scanned as a value, gives year 2023 and no month. |
| EmergencyFix.FixRowKeepsRanges | backend/emergency_fix.py:55-74 | Scanning a row keeps its year in 2022..2024 and its month in 1..12, and leaves its other cells alone. |
| EmergencyFix.Frame.RenameColumns | backend/emergency_fix.py:39-43 | The labels become the renamed labels and the rows are unchanged. |
| EmergencyFix.Frame.AddDefaults | backend/emergency_fix.py:47-48 | `fiscal_year` and `fiscal_month` are appended to the labels, and every row gets 2023 and 12. |
| EmergencyFix.Frame.SetYear | backend/emergency_fix.py:57-63 | Only the scanned row's year cell may change, to the year the value names. |
| EmergencyFix.Frame.SetMonth | backend/emergency_fix.py:66-74 | Only the scanned row's month cell may change, to the month the value names. |
| EmergencyFix.Frame.ScanRow | backend/emergency_fix.py:55-74 | A present value may set its row's year and then its month. A missing value changes nothing. |
| EmergencyFix.Frame.ScanColumn | backend/emergency_fix.py:55-74 | Every row is replaced by its scanned version, in place. |
| EmergencyFix.Frame.ScanFiscalColumns | backend/emergency_fix.py:51-75 | The first column whose name looks fiscal is scanned and the loop stops. A numbered label met first raises. Without a fiscal column nothing changes. |
| EmergencyFix.Frame.Repair | backend/emergency_fix.py:39-94 | The repair succeeds exactly on tables wider than 20 columns. It then leaves the renamed labels plus the two fiscal columns, and every row holds its original cells followed by 2023 and 12. |
| EmergencyFix.RenamedNamesAreNotFiscal | backend/emergency_fix.py:39-56 | None of the fixed names or `col_k` names looks fiscal. |
| EmergencyFix.FirstFiscalSkips | backend/emergency_fix.py:51-56 | Labels that do not look fiscal are skipped, which shifts the found position. |
| EmergencyFix.WideTableScansFiscalYear | backend/emergency_fix.py:39-56 | On a wide table the scan reads the added `fiscal_year` column itself. |
| EmergencyFix.NarrowTableFails | backend/emergency_fix.py:39-56 | On a table of at most 20 columns the first label is a number, so the scan raises. |
| EmergencyFix.DefaultsSurviveScan | backend/emergency_fix.py:47-74 | Scanning the default year leaves a row exactly as the defaults step made it. |

## Left out

- Database access is not modelled: the sqlite connections, executing a statement and fetching rows.
  Each operation stops at the statement text and its parameter list. A database result comes in as a
  parameter (`ExportBody`), and the `nonprofits` table is a map entry.
- pandas internals are not modelled. `read_csv` is modelled only at the level of rows of cells with its
  ragged-row rule. `to_sql` is modelled only as replacing the table, or as failing after the old table was dropped. Reading Excel and dtype inference
  are out.
- Character handling is ASCII only. Python's `str.lower`/`upper` and `isdigit` are modelled on ASCII,
  so Unicode case mapping and Unicode digits are not captured. `int()` on text accepts optional
  surrounding whitespace, a sign and decimal digits; underscores in numerals are out.
- Python floats are modelled as reals, without rounding or NaN.
- Several helpers are not part of this model because they only format values for display or only read
  from the database. These are `format_currency`, `format_number`, `safe_int`, `safe_float`
  (`backend/utils/helpers.py:37-85`, `212-242`) and `get_database_stats` (`backend/utils/helpers.py:126-179`).
- The `parse_date` helper that `backend/utils/helpers.py:244-249` refers to is not part of this model.
- Response rendering is not modelled: CSV, JSON and Excel output, timestamps, file names and streaming.
  The endpoints `/filter/fields`, `/filter/examples`, `/available-years`, `/available-months` and
  `/export/status` are left out too, since they only read or describe the database.
- FastAPI and pydantic validation is modelled only for the range check on `limit`. Type coercion of
  query parameters is out.
- Values.Interpolate: an f-string parameter built around a value that is not a string is kept as
  that value with its surrounding text (`Formatted`), not rendered as Python's `str()` would render it.
- Whitespace in the SQL text is normalised. The triple-quoted statements keep their tokens but not
  their exact line breaks and indentation, which do not change what sqlite executes.
- Export.GetExportData: filter keys reach the SQL text unchecked, exactly as in the source. The model
  therefore counts any `?` inside a key (`KeyMarks`) rather than assuming keys are safe.
- The emergency loader's own I/O is out: checking and deleting files, writing the sample CSV
  (`create_sample_data`) and `verify_database`. The frame it repairs is given as labels and rows.
- Filter.Convert: `float()`/`int()` of text accept plain decimal numerals only. Exponents, `inf` and
  `nan` are out.
- DataPipeline.RunDataPipeline: a failed write is modelled only for the two failures the cleaned table
  itself causes: no column left, or two names equal when case is ignored. The model assumes that the
  `DROP TABLE` of the replace takes effect before the failing `CREATE TABLE`, because sqlite3 does not
  run DDL inside an open transaction. Other failures of the connection or of `to_sql` are not modelled.
