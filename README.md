# Dataset augmentation pipeline, in Dafny

This project models the core of a small web service (`app.py`) that finds public
datasets on Kaggle and HuggingFace and extends a chosen one with rows written by a
language model. The modelled part is the logic between the model's reply and the two
CSV texts the service returns:

- **reply parsing**: the reply is stripped and split into lines. Only lines holding a
  comma are kept, and Python's `[-row_count:]` slice keeps the trailing ones. Each
  kept line is split on commas, with no quoting or escaping (`ResponseParser`);
- **original-dataset loading**: the catalog is chosen by substring, HuggingFace first.
  The dataset identifier is recovered from the URL. For Kaggle, the first `.csv` name
  in the top-level listing of the unpacked archive is read. Every failure is caught and leaves the original
  table empty (`CatalogUrls`, `KaggleLoader`, `Augmentation.LoadOriginal`);
- **alignment and merge**: the original's column labels are copied onto the synthetic
  table when the two column counts are equal. The synthetic rows are appended to the
  original when pandas would call the original non-empty; otherwise the combined table
  is the synthetic table (`Augmentation.AlignAndMerge`, called by
  `Augmentation.GenerateCsvData`);
- **description reduction**: paragraph texts longer than 40 characters are joined with
  newlines, stripped and cut to 3000 characters (`DescriptionExtractor`);
- the URL builders of the two search functions (`CatalogUrls`).

DataFrames are values of `Tables.Table`: the column labels (`None` for pandas' default
integer labels), the rows of string cells and the column count. The Python string
operations the code relies on are written out in `Text`, with Python's semantics:
`strip()` with Python's whitespace set, `split`/`join` on one character, `replace(p, "")`
scanning left to right, `endswith`, substring `in`, and slice-bound normalisation.


### Behaviour of the code worth knowing

- Labels are copied when the column counts are equal. The code does not also require
  the original to be non-empty (app.py:121, app.py:130). So an original with columns
  but no rows still labels the synthetic table.
- The rows are concatenated whenever the original is non-empty, even when the column
  counts differ (app.py:149-150): misaligned tables are merged, not kept apart.
- The page description is fetched (app.py:89) but never placed in the prompt
  (app.py:92-102). The prompt names only the URL and the row count.
- The description is stripped between the join and the truncation (app.py:45).
- The row count is not checked by the server (app.py:240). A count of 0 keeps every
  comma-holding line, and a negative count drops a prefix, as Python's slice does.

## Model

| member | source | states |
|---|---|---|
| Text.Strip | app.py:107 | `strip()` (also app.py:45): no Python whitespace is left at either end, and a string without edge whitespace is returned unchanged |
| Text.Trim | app.py:118 | `strip`: the result is an infix of the input; only dropped characters are removed, from the two ends; the result neither starts nor ends with a dropped character |
| Text.Split | app.py:111 | `split` on one character: at least one piece; at least two when the separator occurs; no piece holds the separator |
| Text.JoinSplit | app.py:110-111 | joining the pieces of a split with the separator gives back the split string |
| Text.SplitJoin | app.py:110-111 | splitting the join of separator-free pieces gives back exactly those pieces |
| Text.Filter | app.py:110 | list comprehension with a filter: every kept element is an input element that passes; every passing input element is kept |
| Text.FilterAppend | app.py:44 | filtering distributes over concatenation, so the relative order is preserved |
| Text.TailSlicePositive | app.py:110 | `xs[-n:]` with n > 0 is the last min(n, len) elements |
| Text.TailSliceZero | app.py:110 | `xs[-0:]` is the whole sequence |
| Text.TailSliceNegative | app.py:110 | `xs[-n:]` with n < 0 drops the first min(-n, len) elements |
| Text.RemoveAll | app.py:118 | `replace(p, "")` (also app.py:128): the result is never longer than the input, and strictly shorter when `p` occurs |
| Text.RemoveAllAbsent | app.py:118 | `replace(p, "")` leaves a string without an occurrence of `p` unchanged |
| ResponseParser.ParseRows | app.py:107-111 | one row per selected line; every row has at least two cells; no cell holds a comma |
| ResponseParser.RowsRoundTrip | app.py:110-111 | row i is the split of selected line i, and joining its cells with commas gives that line back exactly |
| ResponseParser.SelectedLinesComeFromReply | app.py:107-110 | each selected line is a line of the stripped reply, holds a comma and no newline; the lines joined with newlines are the stripped reply |
| ResponseParser.TrailingSelection | app.py:110 | for a positive row count the rows come from the last min(n, m) comma-holding lines, in order; a short reply gives a shorter table |
| ResponseParser.ZeroRowCountKeepsAll | app.py:110 | a row count of 0 keeps all m comma-holding lines |
| ResponseParser.NegativeRowCountDropsPrefix | app.py:110 | a negative row count -d drops the first d comma-holding lines |
| ResponseParser.IntroLineScenario | app.py:107-111 | a reply whose lines are an introductory sentence holding a comma and three data lines parses, for three rows, into exactly the three data rows |
| Tables.FromRows | app.py:111 | `pd.DataFrame(rows)`: default labels, the given rows, and a frame pandas calls non-empty exactly when some row holds a cell |
| Tables.Concat | app.py:150 | `pd.concat` by rows: the top frame's rows, then the bottom frame's, in order; the labels and column count are kept when the two frames share them |
| Tables.Attempt | app.py:117-133 | a loader that raised is a failure, a loader that returned gives that table, and neither is "not attempted" |
| Tables.OnlyLoadedTablesMerge | app.py:149 | `not original_df.empty`: the `pd.DataFrame()` the original starts as (app.py:113) is empty, and the original is non-empty exactly when a table with rows and columns was loaded |
| Tables.Width | app.py:111 | the column count of a frame built from ragged rows is the longest row; no rows give 0 |
| CatalogUrls.KaggleUrl | app.py:56 | the URL built for a Kaggle result holds the Kaggle marker the pipeline tests for |
| CatalogUrls.HuggingFaceUrl | app.py:82 | the URL built for a HuggingFace result holds the HuggingFace marker |
| CatalogUrls.CatalogOf | app.py:116-126 | the HuggingFace branch is taken exactly when the URL holds the HuggingFace marker; the Kaggle branch exactly when it holds only the Kaggle marker; neither exactly when it holds neither |
| CatalogUrls.ExtractId | app.py:118 | the extracted identifier never starts or ends with '/' |
| CatalogUrls.KaggleRoundTrip | app.py:128 | the reference extracted from a built Kaggle URL is the one it was built from, for a reference without edge slashes and without the prefix inside |
| CatalogUrls.HuggingFaceRoundTrip | app.py:118 | the same round trip for HuggingFace URLs |
| CatalogUrls.HuggingFaceUrlDispatch | app.py:116 | a built HuggingFace URL takes the HuggingFace branch |
| CatalogUrls.KaggleUrlDispatch | app.py:116-126 | a built Kaggle URL takes the Kaggle branch unless its reference holds the HuggingFace marker |
| CatalogUrls.KaggleUrlNamingHuggingFace | app.py:116-126 | a URL holding both markers takes the HuggingFace branch, which is tested first |
| DescriptionExtractor.Describe | app.py:44-45 | at most 3000 characters; a prefix of the stripped join of the long paragraphs; the whole of it when that is shorter |
| DescriptionExtractor.KeptParagraphsAreLong | app.py:44 | every paragraph reaching the join is longer than 40 characters, and every such paragraph of the page reaches the join |
| DescriptionExtractor.ShortParagraphIgnored | app.py:44 | a paragraph of at most 40 characters has no effect on the description, wherever it stands |
| DescriptionExtractor.NoLongParagraphs | app.py:44-45 | a page without a paragraph longer than 40 characters gives an empty description |
| DescriptionExtractor.DescriptionStartsClean | app.py:45 | the description never starts with whitespace |
| KaggleLoader.FirstCsvIndex | app.py:69-70 | the found name ends in ".csv" and no earlier name does; none found means no name does |
| KaggleLoader.LoadKaggleDatasetCsv | app.py:61-74 | the loop reads the first ".csv" file of the listing, yields the empty table when there is none, and fails when the download fails |
| KaggleLoader.KaggleLoad | app.py:61-74 | a failed download is a failure; the file read is the first ".csv" name of the listing; with no such name the result is the empty table |
| Augmentation.LoadFor | app.py:113-133 | a URL holding the HuggingFace marker is loaded from HuggingFace by the extracted identifier; otherwise one holding the Kaggle marker goes through the Kaggle loader; nothing is attempted exactly when the URL holds neither marker |
| Augmentation.LoadOriginal | app.py:113-133 | the branches of the code yield the outcome `LoadFor` describes |
| Augmentation.AlignAndMerge | app.py:114-152 | the synthetic table keeps its rows and column count and takes the original's labels exactly when the original loaded with the same column count; a non-empty original is followed by the synthetic rows, the row counts adding up, under the original's labels and column count when the column counts agree; when the original is empty, including after a failed or skipped load, the combined table is the synthetic table |
| Augmentation.GenerateCsvData | app.py:107-152 | synthetic rows and width come from the parse; labels are copied exactly when the original loaded with the same column count; a non-empty original is followed by the synthetic rows, under its labels and column count when the column counts agree; when the original is empty, including after a failed or skipped load, the combined table is the synthetic table |
| Augmentation.SyntheticWidth | app.py:111-131 | a synthetic table has no columns exactly when it has no rows, and otherwise at least two |

## Left out

- HTTP: the page fetch and the HTML parse of `get_description`, the Flask routes, CORS
  and the server start are not modelled. The paragraph texts and the model's reply are
  inputs.
- The language-model calls and the prompt texts (`generate_csv_data`, `summarize_only`)
  are an outside text service. The reply is a parameter of
  `Augmentation.GenerateCsvData`.
- The catalog clients are parameters: HuggingFace's `load_dataset` and the Kaggle
  authentication, download, unzip and directory listing. Each returns `None` for an
  exception, which the pipeline catches as the `Failed` outcome.
- The warning printed in each `except` branch (app.py:124, app.py:133) is console
  output only and is not modelled.
- The temporary directory and its cleanup are not modelled. The directory listing's
  order is the order of the given listing.
- pandas' `read_csv` is a parameter, and `to_csv` is not modelled: the pipeline returns
  the two tables rather than their CSV texts.
- A frame built from ragged rows pads the short rows with missing values. The model
  keeps the rows as parsed and records the padded column count in `width`.
- Tables.Concat: when the two tables' labels differ, pandas forms the union of both
  label sets and places the synthetic cells under new columns. The model keeps the
  rows in order. Its contract states nothing about the labels or the column count in
  that case, and the value it computes there (the top table's) is not pandas'.
- Augmentation.AlignAndMerge: the combined table's labels and column count are stated
  only when the two tables have the same column count, for the reason given under
  Tables.Concat.
- Augmentation.GenerateCsvData: likewise states the combined labels and column count
  only when the two tables have the same column count.
- Search-result shaping in `get_kaggle_datasets` and `get_hf_datasets` is not modelled:
  the `[:count]` slice, the `limit=` argument, titles, and Kaggle results before
  HuggingFace ones. Only the URL builders are modelled.
- A request without `url` or `rows` makes Python raise before the reply is parsed: a
  missing `rows` at `int(None)` in the route, a missing `url` at the page fetch inside
  the pipeline. This is not modelled.
- The commented-out older version of the pipeline is not modelled, and neither is the
  browser client `app.js`.
