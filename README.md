# Spice pesticide residue aggregation, modelled in Dafny

`organic_normal.py` takes a workbook with one sheet per spice. On each
sheet, every pesticide has a block of columns that starts with a residue
value column followed by a compliance column. The script writes two
workbooks of residue summaries:

- the organic one, built from the rows whose variant is `"Organic"`;
- the normal-and-loose one, built from the rows whose variant is
  `"Normal"` or `"Loose"`.

Each workbook gets two summaries per input sheet. One covers the off-label
pesticides, which sit before a separator column. The other covers the
banned pesticides, which sit after it.

This project models three parts of the script:

- **Layout** (`layout.dfy`): the column bounds derived from the
  separator column.
- **`process_data`**, split into four phases:
  - registering pesticide blocks at a stride of three (`registration.dfy`);
  - filtering rows by variant and parsing value cells (`cells.dfy`,
    `tally.dfy`);
  - folding the parsed samples into the nested dict `pesticide_data` of
    per-(pesticide, commodity) counters (`tally.dfy`);
  - emitting numbered report rows (`rendering.dfy`).

  `aggregation.dfy` puts these together into `process_data` as a whole.
- **Report loop** (`assembly.dfy`): the "Generate Reports" loop, which
  makes four `process_data` calls per sheet.

Python dicts keep their insertion order. `ordered_maps.dfy` models them as
a sequence of keys alongside a map. `wrappers.dfy` holds `Option` and
`Result`.

Each loop of the script is a method with a loop. Its invariant ties it to
a recursive specification function. For example:

- `RegisterPesticides` returns `Register(...)`;
- `TallyRows` returns `Accumulate(TableSamples(...))`;
- `EmitRows` returns `Render(...)`;
- `ProcessData` returns `Aggregate(...)`;
- `GenerateReports` returns `BuildReports(...)`.

The lemmas then state what the source promises about those functions. The
main ones are:

- which columns are registered;
- which rows and cells count;
- that every record holds its samples' total, unsafe count, and least and
  greatest unsafe value;
- one row per record, numbered 1, 2, … in dict order;
- the four reports per sheet, and the first error ending the loop.

Two kinds of Python errors are modelled explicitly, as `Registration.Error`.
The first such error ends the report loop.

- `IndexError`: `headers[i]` for a start index before the first column,
  counting from the end.
- `KeyError`: `row[commodity_col]` or `row[variant_col]` for a column name
  the sheet does not have.

Three behaviours of the code shape these errors and bounds:

- **`KeyError` timing.** The commodity and variant columns are looked up by
  name, because the code reads them with `row[name]`. The lookup happens
  inside the row loop, so a missing one raises `KeyError` only when the
  sheet has at least one row. The commodity column is read before the
  variant column.
- **Clamping.** The end of the column range is clamped to the header count
  before the stride loop.
- **Negative start.** The off-label start is not checked to be
  non-negative. A negative start indexes from the end, as Python does, and
  raises `IndexError` only below `-len(headers)`. Between those bounds it
  can put columns after the separator into the off-label report
  (`Layout.NegativeStartWraps`).

## Model

| member | source | states |
|---|---|---|
| OrderedMaps.Put | organic_normal.py:49-52 | `d[k] = v`: the map gets `k := v`; a new key goes to the end of the key order, an existing key keeps its position; validity (no repeated key, keys and map agree) is kept |
| OrderedMaps.Items | organic_normal.py:67 | `d.items()` lists every key of the dict exactly once, in insertion order, each paired with its own value |
| OrderedMaps.PutPut | organic_normal.py:49-52 | assigning a key twice is assigning it once with the second value (a pesticide name seen twice keeps its first position and its last block) |
| Cells.Strip | organic_normal.py:69 | `str.strip()`: the result is a contiguous middle part of the input, everything removed before and after it is whitespace, and it neither starts nor ends with whitespace |
| Cells.IsUnsafe | organic_normal.py:69 | the compliance test `str(cell).strip().lower() == "unsafe"`; its properties are proved in `Cells.UnsafeAnyCasePadded` and `Cells.UnsafeIsSixLetters` |
| Cells.StripPadded | organic_normal.py:69 | stripping whitespace-padded text gives back exactly the text between the padding |
| Cells.UnsafeAnyCasePadded | organic_normal.py:69 | a compliance cell reading "unsafe" in any mix of upper and lower case, surrounded by any whitespace, counts as unsafe |
| Cells.UnsafeIsSixLetters | organic_normal.py:69 | only a text cell can be unsafe, and only one that strips to six letters lower-casing to "unsafe" |
| Cells.ParseNatString | organic_normal.py:73 | `float(str(n))` parses back to `n`, and `float("-" + str(n))` to `-n` |
| Cells.ParseValue | organic_normal.py:71-75 | a missing or empty value cell is skipped, a number is itself, other text is stripped and parsed as `float()` does; its properties are proved in `Cells.PaddedNumberParses`, `Cells.NonNumericSkipped`, `Cells.NotApplicableIsSkipped` and `Tally.UnparsedCellIgnored` |
| Cells.PaddedNumberParses | organic_normal.py:71-75 | a value cell holding a whole number surrounded by any whitespace reads as that number |
| Cells.NonNumericSkipped | organic_normal.py:71-75 | a value cell whose stripped text does not start with a digit, a point or a sign is skipped. This holds for the model's parser; Python's `float()` also accepts the NaN and infinity spellings (see `Cells.ParseFloat` under "Left out") |
| Cells.NotApplicableIsSkipped | organic_normal.py:71-75 | a value cell holding "N/A" is skipped |
| Registration.PyIndex | organic_normal.py:46 | Python indexing: an index resolves exactly when it is within `-n <= i < n`, a negative one counting from the end |
| Registration.RegisterFrom | organic_normal.py:45-52 | the stride loop from any index keeps the dict valid and every block inside the header row, compliance column right after value column |
| Registration.Register | organic_normal.py:43-52 | `pesticide_indexes` after the loop: a valid dict whose blocks all lie within the headers |
| Registration.RegisterPesticides | organic_normal.py:43-52 | the imperative stride loop returns what `Register` specifies, including the `IndexError` |
| Registration.EmptyRange | organic_normal.py:43-45 | a start at or past `min(end, len(headers))` registers nothing |
| Registration.RegisterFailsAtStart | organic_normal.py:43-46 | registration raises exactly when the range is non-empty and starts before `-len(headers)`, and then with `IndexError` at the start index |
| Registration.RegisteredFrom | organic_normal.py:45-52 | from a non-negative index, the rest of the stride loop succeeds and registers exactly the remaining stride indices that have a next column |
| Registration.RegisteredBlocks | organic_normal.py:43-52 | from a non-negative start: every registered name `n` has value column `i` on `range(start, min(end, len), 3)`, compliance column `i+1 < len`, and `headers[i] == n`; every such `i` with `i+1 < len` is registered under `headers[i]` |
| Layout.ResolveLayout | organic_normal.py:28-32 | the off-label start is the user's value, the separator lies strictly between the off-label end and the banned start, and the banned end is within the columns; what the ranges then register is proved in `Layout.SeparatorExcluded`, `Layout.NothingSkipped` and `Layout.DefaultLayout` |
| Layout.SeparatorExcluded | organic_normal.py:28-32 | for a non-negative off-label start, with bounds `sep-1`, `sep+1`, `len-1`, every off-label block lies strictly before the separator column and every banned block strictly after it, so neither range reads the separator and no column is read by both |
| Layout.NothingSkipped | organic_normal.py:28-32 | for a non-negative off-label start, on a sheet with as many columns as the preview, every stride index of both ranges has a compliance column and is registered |
| Layout.DefaultLayout | organic_normal.py:29-30 | with the default off-label start 29, off-label blocks start at column 29 or later, and a separator at column 30 or before gives an off-label range that registers nothing |
| Layout.NegativeStartWraps | organic_normal.py:29-52 | a negative off-label start counts from the end: on ten columns with the separator at 5, a start of -2 registers the pesticide of column 8 (after the separator) with compliance column 9 in the off-label report |
| Tally.Matches | organic_normal.py:60-65 | `variant in filter` for a list, `variant == filter` for one string; what the two filters of the report loop admit is proved in `Assembly.FilterVariants`, and that a failing row counts nothing in `Tally.FilteredRowIgnored` |
| Tally.Count | organic_normal.py:84-91 | counting a sample adds one to `total`, one to `unsafe` exactly when flagged unsafe, leaves min and max alone for a safe sample, and keeps a record valid |
| Tally.Observe | organic_normal.py:77-91 | one sample into `pesticide_data`, creating the pesticide dict and the commodity record on demand; it touches only its own record (`Tally.ObserveLookup`), keeps every record valid (`Tally.ObserveKeepsValid`) and is what the in-place update computes (`Tally.CountSample`) |
| Tally.ObserveKeepsValid | organic_normal.py:77-91 | creating the pesticide dict and commodity record on demand and counting keeps `pesticide_data` valid |
| Tally.AccumulateValid | organic_normal.py:56-91 | every record of `pesticide_data` has `total >= 1`, `unsafe <= total`, min and max absent exactly when `unsafe == 0`, and `min <= max` |
| Tally.CountSample | organic_normal.py:77-91 | the in-place update of the nested dict and the record's fields gives `Observe` of the sample |
| Tally.TallyRow | organic_normal.py:67-91 | the loop over one row's registered pesticides counts exactly that row's parsed samples, in block order |
| Tally.TallyRows | organic_normal.py:56-91 | the row loop yields `pesticide_data` as the fold of the sheet's samples, rows that fail the filter skipped |
| Tally.SeqMinIsLeast | organic_normal.py:88-89 | the running minimum is absent only for no values, and otherwise is one of the values and at most each of them |
| Tally.SeqMaxIsGreatest | organic_normal.py:90-91 | the running maximum is absent only for no values, and otherwise is one of the values and at least each of them |
| Tally.UnsafeValuesAtMost | organic_normal.py:85-87 | there are never more unsafe samples than samples |
| Tally.ExpectedSnoc | organic_normal.py:84-91 | one more sample of a (pesticide, commodity) changes its summary (count, unsafe count, extrema of unsafe values) just as counting changes a record |
| Tally.ObserveLookup | organic_normal.py:77-91 | counting a sample changes its own record and no other |
| Tally.AccumulateRecord | organic_normal.py:77-91 | a record for (p, c) exists exactly when some sample is of p on c; it then holds their number, the number flagged unsafe, and the least and greatest unsafe value |
| Tally.PesticideOrder | organic_normal.py:77-78 | the pesticides of `pesticide_data` are in the order of their first sample |
| Tally.PesticidePresent | organic_normal.py:77-78 | a pesticide has an entry exactly when some sample is of it |
| Tally.CommodityOrder | organic_normal.py:79-82 | within a pesticide, commodities are in the order of their first sample of that pesticide |
| Tally.UnparsedCellIgnored | organic_normal.py:71-75 | a missing, empty or non-numeric value cell contributes nothing: the row yields what it would yield without that pesticide's block |
| Tally.FilteredRowIgnored | organic_normal.py:60-65 | a row whose variant fails the filter contributes nothing: the sheet yields what it would yield without that row |
| Tally.RowSampleOrigin | organic_normal.py:67-75 | each sample of a row was read by one registered block, from a value cell that parses to its value, with that block's compliance flag |
| Tally.SampleOrigin | organic_normal.py:57-75 | each sample comes from a row that passed the filter and a registered value cell that parsed to its value, with the row's commodity and compliance |
| Tally.RowSampleIncluded | organic_normal.py:67-75 | conversely, every block whose value cell parses yields its sample, with the block's compliance flag |
| Tally.SampleIncluded | organic_normal.py:57-75 | conversely, every registered block whose value cell parses, in every row that passes the filter, yields a sample with the row's commodity, the parsed value and the block's compliance flag |
| Tally.RowMatchCount | organic_normal.py:67-85 | with distinct pesticide names, one row adds exactly one sample to a (pesticide, commodity) when it has that commodity and the pesticide's value cell parses, and none otherwise |
| Tally.TableMatchCount | organic_normal.py:56-85 | the number of samples of a registered pesticide on commodity `c` is the number of rows that pass the filter, have commodity `c`, and hold a value that parses in that pesticide's value column |
| Tally.TableNoMatch | organic_normal.py:56-85 | a name with no registered block has no sample |
| Rendering.Columns | organic_normal.py:93-94 | eight column titles, the second naming the report's kind of pesticide |
| Rendering.ToRow | organic_normal.py:99-104 | one report line from a record, with `Percent` giving `unsafe / total * 100` or 0; what it shows of a valid record is proved in `Rendering.RowFacts` |
| Rendering.NumberedAt | organic_normal.py:96-106 | the n-th emitted row carries serial `1 + n` and shows the n-th record |
| Rendering.EmitPesticide | organic_normal.py:98-106 | the inner loop appends one row per commodity of the pesticide, in dict order, numbering on from where it started |
| Rendering.EmitRows | organic_normal.py:96-106 | the emission loop yields exactly `Render` of `pesticide_data` |
| Rendering.AllEntriesSound | organic_normal.py:97-98 | every emitted entry is a record of `pesticide_data` under its own two keys |
| Rendering.AllEntriesComplete | organic_normal.py:97-98 | every record of `pesticide_data` is emitted |
| Rendering.AllEntriesDistinct | organic_normal.py:97-98 | no (pesticide, commodity) is emitted twice |
| Rendering.EntryOrder | organic_normal.py:97-98 | entries go pesticide by pesticide in dict order, and within a pesticide by its commodity order |
| Rendering.RenderOrdered | organic_normal.py:96-107 | rows of different pesticides follow the pesticide order; rows of one pesticide follow its commodity order |
| Rendering.RenderRows | organic_normal.py:96-107 | row `j` has serial `j + 1` and shows exactly the record under its pesticide and commodity |
| Rendering.RenderComplete | organic_normal.py:96-107 | every record has a row |
| Rendering.RenderDistinct | organic_normal.py:96-107 | no record has two rows |
| Rendering.RowFacts | organic_normal.py:99-104 | a row shows "No Residue" for min and max exactly when no sample was unsafe, min at most max, total at least 1, and the percent is `unsafe / total * 100`, between 0 and 100 (the zero-total fallback is never taken) |
| Aggregation.ColumnPos | organic_normal.py:58-59 | `row[name]` reads the first column called `name`; absent exactly when no header is `name` |
| Aggregation.Aggregate | organic_normal.py:37-107 | what `process_data` returns or raises: the registration error, else `KeyError` for a missing commodity and then variant column when there are rows, else the report; its rows are characterised in `Aggregation.ReportRows`, `Aggregation.ReportOrder`, `Aggregation.ReportTotals` and `Aggregation.EmptyRangeReport` |
| Aggregation.ProcessData | organic_normal.py:37-107 | the imperative `process_data` returns `Aggregate`: the registration error, else `KeyError` for a missing commodity and then variant column when there are rows, else the report |
| Aggregation.ReportRows | organic_normal.py:37-107 | each report row is numbered `j + 1` and summarises exactly the counted samples of its (pesticide, commodity): their number, the unsafe ones, the least and greatest unsafe value and the unsafe percentage; every pair with a sample has a row, and no pair has two |
| Aggregation.ReportOrder | organic_normal.py:37-107 | rows follow the order in which pesticides were first counted, and within one pesticide the order its commodities were first counted |
| Aggregation.EmptyRangeReport | organic_normal.py:43-65 | an empty column range gives a report with the eight columns and no row, unless a non-empty sheet lacks the commodity or variant column |
| Aggregation.SampleSources | organic_normal.py:45-75 | for a non-negative start, every counted sample comes from a filtered-in row and a stride column of the range headed by its pesticide, whose value cell parses to its value and whose next cell gives its compliance |
| Aggregation.SampleCounted | organic_normal.py:45-85 | conversely, in every row that passes the filter, the value cell of every registered pesticide that parses is counted, under the row's commodity and with that pesticide's compliance flag |
| Aggregation.SampleCount | organic_normal.py:45-85 | a registered pesticide has, on commodity `c`, as many samples as there are rows that pass the filter, have commodity `c` and hold a value that parses in its value column; any other name has none |
| Aggregation.ReportTotals | organic_normal.py:37-107 | each report row's pesticide is registered, and its "Total Samples" is the number of rows that pass the filter, have the row's commodity and hold a value that parses in that pesticide's value column |
| Assembly.FilterVariants | organic_normal.py:60-65 | the organic filter admits exactly the variant text "Organic" and the other exactly "Normal" and "Loose"; a missing or numeric variant passes neither |
| Assembly.Combine | organic_normal.py:113-125 | a sheet that raises nowhere gives two reports for each workbook |
| Assembly.PerSheet | organic_normal.py:111-125 | one outcome per input sheet |
| Assembly.ErrorPersists | organic_normal.py:111-125 | once a sheet raises, later sheets change nothing |
| Assembly.FirstFailure | organic_normal.py:111-125 | the loop fails exactly when some sheet does, with the first failing sheet's error, all earlier sheets having succeeded |
| Assembly.CollectPairs | organic_normal.py:111-125 | sheet `k` wrote entries `2k` and `2k+1` of each workbook |
| Assembly.ReportSheet | organic_normal.py:113-125 | the four calls of one sheet, stopping at the first that raises, give `SheetReports` |
| Assembly.GenerateReports | organic_normal.py:111-125 | the imperative loop over sheets returns `BuildReports` |
| Assembly.Dispatch | organic_normal.py:113-125 | in each workbook, sheet `k` gives "Off-Label name" then "Banned name". The organic workbook uses the "Organic" filter with labels "Off-label Organic" and "Banned Organic". The other uses the ["Normal", "Loose"] filter with labels "Off-label" and "Banned". Each label is used with its own column range |
| Assembly.FirstFailingSheet | organic_normal.py:111-125 | the loop raises exactly when some sheet's calls raise, with the error of the first such sheet |

## Left out

- The Streamlit interface is not modelled: page setup, upload, preview, select boxes, number input, buttons, messages and downloads (organic_normal.py:1-24, 109-110, 130-133). The separator arrives as a column index, the off-label start as an integer, and the column names as strings.
- Excel reading and writing is not modelled: `pd.ExcelFile`, `parse`, `ExcelWriter`, `to_excel`, `close`. A sheet is given as a header row and rectangular rows of cells, and a workbook as the list of (sheet name, report) pairs written to it.
- The writer's behaviour is not modelled for duplicate sheet names or names longer than Excel's 31 characters.
- When a call raises, the script never closes the two writers and leaves no output. The model returns only the error.
- The `print` calls in `process_data` (organic_normal.py:53-54) are debug output and are not modelled.
- The `spice_name` parameter of `process_data` is not modelled, because the body never uses it.
- Cells.ParseFloat: follows Python's decimal `float()` grammar: sign, digits with single underscores, fraction and exponent. It does not accept the spellings of infinity and NaN, which Python parses. It does not round to binary floating point: values are exact reals.
- Cells.Strip, Cells.Lower: strip the whitespace Python's `str.isspace` lists but lower-case only the Latin capitals. No other character lower-cases to a letter of "unsafe", so the unsafe test is unaffected.
- Cells.IsDigit: accepts only ASCII digits. Python's `float()` also accepts other Unicode decimal digits.
- Boolean and date cells are not modelled: a cell is missing, text, or a number.
- Headers are modelled as strings. The value and compliance cells (organic_normal.py:68-69) are read by position. pandas reads `row[i]` by label when the header row holds integer labels; that case is not modelled.
- A missing (NaN) commodity may not be merged as the model merges it. The model files every row with a missing commodity under one key. In Python each NaN read from a row may be a distinct dict key.
- The percent column is kept as the exact real `unsafe / total * 100`. Its `"%.2f%%"` text formatting is not modelled.
- Concurrency and timing are not modelled; the script has none.
