# nerv result-table and click-card model

This is a Dafny model of the data-shaping core of the nerv dashboard. It
covers two modules.

`nerv/utility.py`:

- `pull_files` picks the `.json` result files out of a directory listing.
- `process_file` flattens one result document (subject → step → step
  record) into rows of Subject, Dataset-Pipeline, Result, Metadata and Color.
- `process_files` and `pull_directories` lay the per-file tables end to end,
  either for one directory or per subdirectory.
- `generate_summary` builds the summary card of total and missing counts.

`nerv/callbacks.py`:

- `histogram_click_func` and `scatter_click_func` turn a click into a
  metadata card.
- `plot_scatter_func` defaults the scatter plot's axes to the first and last
  distinct Dataset-Pipeline.

Files:

- `wrappers.dfy`: `Option`, `Result`, and `Traverse`. `Traverse` is the
  "append in a loop, stop at the first exception" pattern every builder
  follows.
- `seqs.dfy`: `pd.concat` as `Flat`, `unique().tolist()` as `Unique`, and
  `[:-1]` as `AllButLast`.
- `strings.dfy`: `str()` on integers, and the parse that reads it back.
- `components.dfy`: the card tokens (heading, text, line break, link,
  collapsed accordion panel).
- `utility.dfy`: the table builders and the summary.
- `callbacks.dfy`: the click cards and the axis rule.

A Python exception is modelled as a `Failure` carrying an `Error`, raised at
the point where Python evaluation would raise it. The directory listing and
the parsed JSON documents are passed in as a `FileSystem` value. The
`COLORS` palette table is a parameter. Each loop of the source is a method,
proved equal to a specification function. The properties are proved about
those functions.

## Model

| member | source | states |
|---|---|---|
| Utility.FileRefOf | nerv/utility.py:36 | the entry for a `.json` name is (path + "/" + name, stem), and stem + ".json" gives the name back |
| Utility.PulledFilesSound | nerv/utility.py:34-36 | every entry comes from a listed name ending in ".json", with path = dir + "/" + stem + ".json" |
| Utility.PulledFilesComplete | nerv/utility.py:34-36 | every listed name whose last five characters are ".json" has its entry |
| Utility.PulledFilesAppend | nerv/utility.py:34-36 | entries keep listing order: the entries of a + b are those of a followed by those of b |
| Utility.PullFiles | nerv/utility.py:33-37 | the loop builds exactly the entries `PulledFiles` specifies |
| Utility.PyIndex | nerv/utility.py:69 | Python indexing succeeds exactly for -len <= z < len, with negative z counting from the end |
| Utility.Lookup | nerv/utility.py:69 | a key lookup returns a value stored under the key, or raises KeyError naming the key when no entry has it |
| Utility.RawResult | nerv/utility.py:69 | `record["Result"]["result"]` gives the stored result when "Result" holds a result object, raises KeyError("Result") when no key is "Result", and KeyError("result") when "Result" holds step details |
| Utility.Coerce | nerv/utility.py:72-77 | Result is -1 exactly when the raw result is null or is itself -1; otherwise it is the raw value |
| Utility.ColorAt | nerv/utility.py:66-71 | step i of a subject gets palette[len-1-i] for i < len, palette[2·len-1-i] for len <= i < 2·len, and raises IndexError from 2·len on |
| Utility.RowContents | nerv/utility.py:68-86 | a row holds the subject key, "<stem>-<step key>", the coerced result, the step record unchanged and the counted-down colour; it fails exactly when the record has no result or the palette runs out twice over |
| Utility.SubjectRowsAll | nerv/utility.py:65-71 | a subject's rows are one per step in step order, built exactly when each step's row is |
| Utility.DocRowsSucceed | nerv/utility.py:64-71 | a document's rows are built exactly when it is empty, or its palette exists and every step's row can be built |
| Utility.DocRowsLength | nerv/utility.py:64-86 | a successful build has exactly one row per step of the document, and a palette at its position when it has a subject |
| Utility.DocRowAt | nerv/utility.py:64-86 | the row for step j of subject s sits at position (steps of the subjects before s) + j and is the row built from that step with the file's palette |
| Utility.DocRowsNeedPalette | nerv/utility.py:66 | a document with a subject and no palette at its position raises IndexError |
| Utility.OneStepRow | nerv/utility.py:64-86 | one step "stepA" of subject "S1" in file "f" gives the row (S1, "f-stepA", coerced result, record, last colour of the palette) |
| Utility.OneStepFile | nerv/utility.py:64-86 | one subject "S1" with one step "stepA" of result 5 gives the single row (S1, "f-stepA", 5, record, last colour); a null result gives -1 |
| Utility.ProcessFile | nerv/utility.py:61-87 | the nested loops with the counter z build exactly the rows `FileRows` specifies, or raise the same error |
| Utility.ProcessedFilesLayout | nerv/utility.py:90-95 | the table is the per-file tables in `pull_files` order laid end to end, file i using palette i; it is built exactly when the directory exists, has a result file and every file's rows build |
| Utility.ProcessedFilesNoResultFile | nerv/utility.py:95 | a directory without `.json` names makes `pd.concat` of nothing raise |
| Utility.ProcessedFilesPaletteLimit | nerv/utility.py:93-94 | with n palettes, every file from position n on must have no subjects for the table to build |
| Utility.ProcessFileList | nerv/utility.py:92-94 | the loop over the files builds exactly `FileTables` |
| Utility.ConcatShape | nerv/utility.py:95 | `pd.concat` raises exactly on an empty list of tables; otherwise it lays the tables end to end, its length the sum of theirs |
| Utility.ProcessFiles | nerv/utility.py:90-95 | the method builds exactly `ProcessedFiles` |
| Utility.JoinShape | nerv/utility.py:101 | `os.path.join(path, name)` is the name itself when it is absolute; otherwise it starts with path and ends with name, with one '/' between them unless path is empty or already ends with '/' |
| Utility.GroupIsProcessedFiles | nerv/utility.py:98-105 | listing, filling and concatenating one directory's group gives (name, what `process_files` gives for that directory) |
| Utility.PulledDirectoriesPerDirectory | nerv/utility.py:98-105 | one (name, table) pair per directory in listing order, each table equal to `process_files` of that directory, so palette positions restart at 0 per directory |
| Utility.PulledDirectoriesSucceed | nerv/utility.py:98-105 | the grouped tables are built exactly when the root is listed and every directory's table builds on its own |
| Utility.PullDirectories | nerv/utility.py:98-105 | the three loops, including the in-place fill of each triple's list, build exactly `PulledDirectories` |
| Utility.CountMissing | nerv/utility.py:110 | the missing count is at most the row count |
| Utility.CountMissingExtremes | nerv/utility.py:110 | the missing count is 0 exactly when no Result is -1, and the row count exactly when every Result is -1 |
| Utility.MissingIn | nerv/utility.py:124 | a pipeline's missing count is at most the total missing count |
| Utility.MissingInNone | nerv/utility.py:124 | a pipeline's missing count is 0 exactly when none of its rows has Result -1 |
| Utility.PerPipelineSumsToMissing | nerv/utility.py:119-126 | the per-pipeline missing counts over the distinct pipelines sum to the total missing count |
| Utility.GenerateSummary | nerv/utility.py:108-129 | the card has the header, `str` of the row count, `str` of the missing count, then one line with its missing count per distinct pipeline in first-seen order, each followed by a break |
| Seqs.FlatAt | nerv/utility.py:95 | concatenation keeps each table's rows contiguous: row j of table i is at (rows of tables before i) + j |
| Seqs.FlatAppend | nerv/utility.py:95 | concatenating two lists of tables drops and duplicates nothing |
| Seqs.Unique | nerv/utility.py:119 | `unique()` is no longer than its input, and non-empty for a non-empty input |
| Seqs.UniqueMembers | nerv/utility.py:119 | `unique()` keeps every value and adds none |
| Seqs.UniqueDistinct | nerv/utility.py:119 | `unique()` lists each value once |
| Seqs.UniqueFirstSeen | nerv/utility.py:119 | `unique()` lists values in the order of their first occurrence |
| Seqs.UniqueFirst | nerv/callbacks.py:187 | the first distinct value is the first value |
| Seqs.UniqueLast | nerv/callbacks.py:187 | the last distinct value is the one whose first occurrence comes latest |
| Seqs.AllButLast | nerv/callbacks.py:55 | `[:-1]` keeps every element but the last, in order, and gives nothing for an empty list |
| Strings.Str | nerv/utility.py:109 | `str` of an integer is a canonical numeral (no leading zero, no "-0"), starting with '-' exactly for a negative number |
| Strings.NumeralIsStr | nerv/callbacks.py:61-62 | a canonical numeral is the `str` of the number it reads as, so a text that is a numeral reading back as v is exactly `str(v)` |
| Strings.StrRoundTrip | nerv/callbacks.py:61-62 | reading back what `str` printed gives the number again |
| Strings.StrInjective | nerv/callbacks.py:61-62 | different IDs print as different link texts |
| Callbacks.ResultLine | nerv/callbacks.py:36-40 | the line is "Result: N/A" exactly when the value is -1; otherwise its text after "Result: " is a canonical numeral that reads back as the value, hence `str` of it by `NumeralIsStr` |
| Callbacks.StatusText | nerv/callbacks.py:56 | a null status shows "Incomplete", any other status shows itself |
| Callbacks.IdLink | nerv/callbacks.py:57-81 | a null ID shows "N/A"; any other ID is a link whose address is the base URL followed by the link text, and whose text is a canonical numeral reading back as the ID, hence `str(id)` |
| Callbacks.ConfigText | nerv/callbacks.py:82 | a null tool configuration ID shows "N/A"; any other is plain text, a canonical numeral reading back as the ID, hence `str(id)` |
| Callbacks.StepPanel | nerv/callbacks.py:83-105 | the panel is titled with the step key and holds the five labelled fields with breaks between them |
| Callbacks.StepPanelShows | nerv/callbacks.py:56-105 | the panel shows the status, the input and output links to the userfiles URL, the task link to the tasks URL, and the configuration text |
| Callbacks.StepPanelsSucceed | nerv/callbacks.py:55-106 | the panels are built exactly when every metadata entry before the last has step details; there are none for zero or one entries |
| Callbacks.StepPanelsAt | nerv/callbacks.py:55-106 | one panel per metadata entry but the last, in order, each the panel of that entry's details titled with its key |
| Callbacks.ThreeEntryMetadata | nerv/callbacks.py:55 | metadata stepA, stepB, finalStatus gives exactly the panels stepA and stepB |
| Callbacks.AppendStepPanels | nerv/callbacks.py:55-106 | the loop appends exactly the `StepPanels` panels to the card, or raises their error |
| Callbacks.HistogramCard | nerv/callbacks.py:32-33 | the histogram card is "no update" exactly when the click payload is empty |
| Callbacks.HistogramCardContents | nerv/callbacks.py:34-55 | the card names the subject from customdata[0], the pipeline from y and the result from x, followed by the panels of customdata[2]; no table is consulted |
| Callbacks.HistogramClick | nerv/callbacks.py:17-109 | the method builds exactly `HistogramCard` |
| Callbacks.ScatterAxes | nerv/callbacks.py:131-147 | chosen axes are kept; if either is missing or empty, both are defaulted, which fails exactly on an empty table |
| Callbacks.DefaultAxes | nerv/callbacks.py:185-187 | defaulted axes are the pipeline of the first row and the pipeline whose first occurrence comes latest |
| Callbacks.AxisResults | nerv/callbacks.py:151-152 | a value is on an axis's series exactly when some row of that pipeline has it as Result |
| Callbacks.ScatterSeries | nerv/callbacks.py:131-158 | the plotted x and y series exist exactly when the axes can be chosen, and hold exactly the Results of the rows on the x and the y pipeline |
| Callbacks.FirstMatch | nerv/callbacks.py:190-195 | the lookup gives the first row in table order with the axis pipeline and the clicked value, or none when no row has both |
| Callbacks.ScatterCard | nerv/callbacks.py:182-183 | the scatter card is "no update" exactly when the click payload is empty |
| Callbacks.PlottedClickResolves | nerv/callbacks.py:190-217 | a click on values drawn on both axes gives a card, when every row's metadata has step details before its last entry |
| Callbacks.ScatterStaleClick | nerv/callbacks.py:190-195 | a click whose x value matches no row of the x pipeline raises IndexError |
| Callbacks.ScatterStaleClickY | nerv/callbacks.py:272-278 | when the x side resolves and its panels build, a y value that matches no row of the y pipeline raises IndexError |
| Callbacks.ScatterCardContents | nerv/callbacks.py:189-352 | the card has the x section with the first matching row's subject and panels, a break, then the y section likewise, with (len(xMeta)-1)+(len(yMeta)-1) panels |
| Callbacks.TwoRowClick | nerv/callbacks.py:190-299 | clicking (5, 7) on axes P1 and P2 against rows (A, P1, 5) and (B, P2, 7) names A on the x side and B on the y side |
| Callbacks.ScatterClick | nerv/callbacks.py:161-354 | the method builds exactly `ScatterCard` |

## Left out

- File and JSON I/O: `os.listdir` and `json.load` become lookups in a `FileSystem` value. An unreadable or unparsable file is not distinguished from a missing one (`NoSuchPath`). An entry that is not a directory cannot be told apart in `pull_directories`.
- The JSON document is an ordered list of (key, value) pairs, as Python's dict keeps insertion order. A JSON null and an absent key inside a step record are not distinguished beyond `Option`: where the source raises KeyError for a missing "status", "inputID", "outputID", "taskID" or "toolConfigID" key (nerv/callbacks.py:56-82) or a missing "result" key (nerv/utility.py:69), the model shows "Incomplete" or "N/A", or gives Result -1. A parsed JSON object has distinct keys, and `json.load` keeps the last value of a repeated key; the model's key lists may repeat a key, and `Lookup` then takes the first pair. The input, output, task and tool configuration IDs are integers in the model; a string ID, which `str` prints as itself, is not modelled. A value of an unexpected JSON type is only modelled where the code indexes or concatenates it (`WrongType`).
- Utility.Coerce: the Result column is `float(...)` in the source; the model keeps integers. NaN, infinities and fractional results are not modelled. Equality with -1 is exact integer equality.
- Callbacks.ResultLine: where the clicked value reaches the callback as a Python float, `str` prints e.g. "5.0"; the model prints integers.
- pandas, plotly and dash objects are not modelled. A DataFrame is a sequence of `Row`, and a card or accordion is a sequence of `Token`. CSS class names, `start_collapsed` and the figure built by `plot_scatter_func` (marginals, colours, range slider) are left out. Only the axis choice and the plotted Result series are modelled.
- The colours of `COLORS` come from `plotly.express`. The palette table is a parameter, so the five-palette limit appears as "file positions beyond the table raise".
- Callbacks.ScatterCard: a click whose value matches no row raises IndexError, as the code does. It does not degrade to a "no selection" result. Likewise, more files than palettes raise rather than cycle through the palettes.
- The task URL keeps the literal "inser_ID_here" placeholder exactly as it appears in the code.
- The click payload `None` and the empty payload `{}` are both modelled as `None`. A payload without a "points" key is not modelled.
- Dash callback dispatch, server setup and `demo.py` are out of scope, since they contain no logic.
