# Crypto ETF flow reshaping, modelled in Dafny

This project models the data-reshaping core of the crypto ETF tracker's
`df.py`. The tracker reads the daily net-flow tables of the spot Bitcoin and
Ethereum ETFs and turns them into numeric frames. It then derives the series
the dashboard plots: per-fund flows, total flow, and their running sums.

The model covers:

- **Cleaning** (`clean_etf_data`), in modules `Cells` and `Normalise`:
  - an accounting-style amount such as `(1,234.5)` becomes `-1234.5`;
  - thousands separators are removed;
  - the `-` placeholder becomes 0;
  - every money column becomes numeric, and the `Date` column is read as dates;
  - a copy of the input with parsed dates is kept as the "original".
- **Headers**, in module `Headers`:
  - the Ethereum page's three-level header loses its third level;
  - the fund tickers are read from what is left;
  - the first two levels are joined with `" - "`;
  - two placeholder labels are renamed `Date` and `Total`.
  - The Bitcoin fund list is every label except `Date` and `Total`.
- **Trimming**, in module `Frames`: the summary rows are cut with `iloc[:-k]`, where k is 4 for Bitcoin and 1 for Ethereum.
- **Splitting and cumulative sums** (the second half of `fetch`), in module `Derive`:
  - the flow splits into the per-fund frame and the `[Date, Total]` frame;
  - each numeric column gets its running sum.
  - Running sums are computed by two `while` loops, `RunningTotals` over one column and `CumulativeColumns` over the columns. Both are proved against a recursive prefix-sum function, and `ComputeSeries` uses them to compute the whole derivation.
- **The page pipelines**, in module `Pipeline`: `fetch_btc_etf`, `fetch_eth_etf` and their fallback table, plus the `etf_flow.Date[0]` lookup done by `fetch`.

Tables are columnar values (module `Frames`): a sequence of labelled columns
of the same height. A cell is scraped text, a number (an exact `real`) or a
date. A pandas `KeyError` or a `to_numeric` failure is an `Err` of
`Outcomes.Result`, naming the missing label or the first cell that failed.
Date parsing is a parameter `toDate` of the cleaning: the model states what
happens when it fails, not how dates are read.

## Model

| member | source | states |
|---|---|---|
| Cells.NegateParens | df.py:22 | The regex rewrite of `(digits)` to `-digits` never lengthens a text |
| Cells.NegateParensWrapped | df.py:22 | A parenthesised run of digits, dots and commas becomes a minus followed by the run, with the rest of the text rewritten after it |
| Cells.NegateParensPlain | df.py:22 | A text with no `(` is left unchanged |
| Cells.NoMatchUnchanged | df.py:22 | A text in which the pattern matches nowhere is left unchanged, so every `(` that starts no parenthesised amount (as in `(12` or `(1,2x)`) is kept |
| Cells.UnmatchedParenFails | df.py:22-30 | A `(` followed by a character that cannot start an amount stays at the front of the rewritten text, so the cell never converts, whatever follows |
| Cells.UnmatchedParenKept | df.py:22-30 | Such a `(` together with the text after it is kept unchanged when that text holds no `(` and no `,` (a later `,` is still removed: `(x,5)` becomes `(x5)`) |
| Cells.StripCommas | df.py:24 | The result contains no comma and is no longer than the input |
| Cells.StripCommasAppend | df.py:24 | Removing commas works piece by piece over a concatenation |
| Cells.StripCommasPlain | df.py:24 | A text without commas is left unchanged |
| Cells.CleanAmount | df.py:22-30 | The per-cell cleaning: a number passes through unchanged, a date is not an amount, a text that is exactly `-` once rewritten becomes 0, and any other text is parsed after the parenthesis and separator rewrites |
| Cells.ParseUnsignedAccepts | df.py:30 | The numeric parser accepts exactly texts of digits with at most one dot and at least one digit (so `5.` and `.5` are numbers) |
| Cells.ParseNumber | df.py:30 | A text parses exactly when it is an optional `+` or `-` followed by such a decimal, and a leading `-` negates the value |
| Cells.CleanAmountFails | df.py:22-30 | A text cell fails to clean if and only if its rewritten text is neither `-` nor a decimal |
| Cells.CleanAmountPlain | df.py:22-30 | A plain text without parentheses or commas cleans to what the numeric parser reads from it |
| Cells.AccountingRoundTrip | df.py:22-30 | Any amount printed in accounting style (parenthesised when negative, with or without separators, any number of decimals) cleans back to its value |
| Cells.OutflowRoundTrip | df.py:22-30 | A parenthesised amount cleans to the negated value of its digits |
| Cells.SeparatorsIrrelevant | df.py:24 | The same amount printed with and without separators cleans to the same value |
| Cells.ExampleOutflow | df.py:22-30 | `(1,234.5)` cleans to -1234.5 |
| Cells.ExamplePlaceholder | df.py:27 | `-` cleans to 0 |
| Cells.ExampleInflow | df.py:22-30 | `500` cleans to 500 |
| Cells.ExampleSignedMinus | df.py:22-30 | `-5` keeps its sign and cleans to -5 |
| Cells.ExampleNotAmount | df.py:22 | `(n/a)` is not rewritten and does not clean |
| Cells.CommaOnlyParensIsZero | df.py:22-27 | `(,)` is rewritten to `-,`, then to `-`, and so cleans to 0 |
| Frames.Find | df.py:18 | Finds the first column with a given label; reports none exactly when the label is absent |
| Frames.Get | df.py:18 | `df[x]` fails with a missing-column error naming x exactly when x is absent; otherwise it returns the cells of a column labelled x |
| Frames.Keep | df.py:21 | The columns that survive a drop, never more than the input. KeepMembers, KeepAppend and KeptLabels state which columns survive and that their order is kept |
| Frames.Drop | df.py:21 | `drop(columns=xs)` fails exactly when some label of xs is absent, naming one such label. Otherwise it keeps every other column in order, with the same height |
| Frames.KeepAppend | df.py:21 | Dropping columns works piece by piece, so the kept columns keep their relative order |
| Frames.KeptLabels | df.py:95 | A label survives the drop exactly when it is not one of the dropped labels |
| Frames.Select | df.py:208 | `df[xs]` fails exactly when a label is absent. Otherwise its labels are exactly xs, and column i holds `df[xs[i]]` |
| Frames.Assign | df.py:31 | After `df[x] = cells`, `df[x]` is the new cells. An existing column keeps its place and the other columns are unchanged; otherwise the new column goes last |
| Frames.DropFooter | df.py:93 | `iloc[:-k]` keeps the labels and the first n-k rows of every column; a table of k rows or fewer becomes empty |
| Normalise.ParseDates | df.py:18 | Date reading succeeds exactly when every cell is readable, giving one date per row in order. Otherwise it reports the first unreadable row |
| Normalise.ToNumericCells | df.py:30 | A column converts exactly when every cell cleans, giving the cleaned values in order. Otherwise the first failing row is reported |
| Normalise.ToNumericColumns | df.py:30 | The conversion succeeds exactly when every column converts; a failure is the failure of one of the columns |
| Normalise.NumericOfRewrite | df.py:22-30 | The rewrite-then-convert of the money columns succeeds exactly when every money cell cleans; each result column holds its cells' clean values; a failure names a failing cell |
| Normalise.CleanEtfData | df.py:11-33 | `clean_etf_data` fails only on a missing Date column, an unreadable date or a money cell that does not convert, and both returned tables keep the input's rows. CleanOutcome, CleanedTable, OriginalCopy and CleanIdempotent state the rest |
| Normalise.CleanOutcome | df.py:11-33 | Cleaning succeeds if and only if there is a Date column, every date is readable and every money cell cleans, with the specific error for each failing case in that order |
| Normalise.CleanedTable | df.py:11-33 | The cleaned table holds the money columns in order with their cleaned values, then `Date` last, holding the parsed dates row for row |
| Normalise.OriginalCopy | df.py:16-18 | The original copy has the same labels, its Date column is the input's Date column as read by the date reader, and every other column is untouched |
| Normalise.CleanIdempotent | df.py:11-33 | Cleaning a cleaned table gives it back, as both results |
| Headers.DropLevel2 | df.py:130 | Dropping header level 2 keeps levels 0 and 1 of every column, in order |
| Headers.Flatten | df.py:136-144 | Every column keeps its cells, and its label becomes the rename of its two header levels joined with `" - "` |
| Headers.Rename | df.py:138-144 | A label is renamed Date or Total only from its placeholder (or when it already is that name); every other label is unchanged |
| Headers.DatePlaceholderRenamed | df.py:140 | The first column's two empty header cells join to a label that is renamed Date |
| Headers.TotalPlaceholderRenamed | df.py:141 | A Total column in position 10 joins to a label that is renamed Total |
| Headers.TotalRenamedOnlyAtTen | df.py:141 | A Total column with an empty ticker level is renamed Total if and only if it is column 10 |
| Headers.EthFunds | df.py:132-134 | The fund list fails (KeyError on Total) exactly when no column has Total as its issuer; every fund listed is the ticker of a non-Total column |
| Headers.EthFundsAfterFirst | df.py:132-134 | When the first column is not a Total column, the funds are the tickers of all later non-Total columns, in column order |
| Headers.WithoutTopAppend | df.py:133 | Dropping the Total headers works piece by piece, so the funds stay in column order |
| Headers.BtcFunds | df.py:95 | The Bitcoin fund list fails exactly when Date or Total is absent. Otherwise it holds every other label, in column order |
| Derive.PrefixSums | df.py:210-217 | `cumsum` of a column gives one running total per value. PrefixSumsAt, PrefixSumsRecurrence and PrefixSumsUnique state what the totals are |
| Derive.CumSum | df.py:210 | `DataFrame.cumsum()` gives one column per input column, each the running sum of that column alone under the same label |
| Derive.PrefixSumsAt | df.py:210-217 | Entry i of the running sum is the sum of the first i+1 values |
| Derive.PrefixSumsRecurrence | df.py:210-217 | The running sum starts with the first value, adds one value per step, and ends at the total |
| Derive.PrefixSumsUnique | df.py:210-217 | Any series with that recurrence is the running sum |
| Derive.PrefixSumsSnoc | df.py:210-217 | Appending a value extends the running sum by the new total |
| Derive.RunningTotals | df.py:215 | The loop computes exactly the running sum of its input |
| Derive.CumulativeColumns | df.py:210 | The loop replaces every column by its running sum, keeping labels |
| Derive.DeriveSeries | df.py:207-217 | The split and the running sums fail only on a missing Total or Date column, and all four tables keep the flow's rows. DeriveOutcome, SplitExact and CumulativeSeries state the rest |
| Derive.DeriveOutcome | df.py:207-217 | The derivation succeeds if and only if Total and Date are present; Total is checked first |
| Derive.SplitExact | df.py:207-208 | The per-fund frame is the flow without Total, in order, and still has Date. The total frame is exactly `[Date, Total]`, holding the flow's columns |
| Derive.CumulativeSeries | df.py:210-217 | The per-fund running sums are those of every fund column, in order, with Date appended last. The total running sum is Date plus the running sum of Total |
| Derive.ComputeSeries | df.py:207-217 | The imperative derivation returns exactly what the specification function does |
| Derive.ExampleRunningTotals | df.py:210-217 | The running sums of -1234.5, 0, 500 are -1234.5, -1234.5, -734.5 |
| Pipeline.CleanFlowNumeric | df.py:30-31 | A cleaned table has the same height, all non-Date columns numeric, and a Date column holding only dates |
| Pipeline.ReshapeBtc | df.py:87-104 | After cutting 4 rows, the Bitcoin flow is ready (numeric outside Date, Date holding only dates) with max(n-4, 0) rows (none for n <= 4). Its funds are exactly the labels other than Date and Total, and a missing Date or Total is reported by name |
| Pipeline.ReshapeEth | df.py:124-154 | After cutting 1 row, the Ethereum flow is ready with max(n-1, 0) rows (none for n <= 1); its funds are the header-derived tickers, and a page with no Total issuer fails with that KeyError |
| Pipeline.ReshapeFallback | df.py:74-85 | The fallback flow, when it cleans, is ready and lists no funds |
| Pipeline.FallbackSource | df.py:74-85 | The fallback cleans exactly when both of its dates are readable. The flow is then the zero Total followed by the two dates, the original copy is the table with its dates read, and no fund is listed |
| Pipeline.FetchBtcEtf | df.py:70-104 | A failed request gives the fallback; any result is a ready flow |
| Pipeline.FetchEthEtf | df.py:107-154 | A failed request gives the fallback; any result is a ready flow |
| Pipeline.FetchSource | df.py:193-196 | `fetch` reads the Bitcoin page for `BTC` and the Ethereum page for every other asset |
| Pipeline.FirstDate | df.py:203 | The first date exists exactly when the ready flow has rows, and is the first Date cell; an empty flow fails with no rows |
| Pipeline.Fetch | df.py:192-217 | A result of `fetch` comes from a ready flow with rows, starts at its first Date cell, and its total table is exactly `[Date, Total]` |
| Pipeline.FetchOf | df.py:192-217 | On a source with rows and both Date and Total, `fetch` returns that source, its first date and its derived series |
| Pipeline.ShortPageHasNoRows | df.py:192-203 | Once the chosen page has been reshaped, fetch fails for lack of rows if and only if the page had no more rows than its summary footer |
| Pipeline.FallbackFetch | df.py:74-85 | When the page cannot be fetched and both fallback dates read, fetch succeeds: it starts at the first fallback date, lists no fund, and the running total is zero on both days |

## Left out

- Downloading the pages (`scrape`, `read_html` and its `skiprows`) is left out: each page table is an input. A request whose status is not 200 is the input `None`, which leads to the fallback table.
- `fetch_etf_volumes` and `fetch_asset_price` are left out because they call yfinance over the network.
- `extract_date_index` is left out: it only feeds the volume and price frames.
- The time-zone localisation of the first date is left out, as are the TradingView widget text and the streamlit app.
- `pd.to_datetime` is the parameter `toDate`. A cell that is already a number in the Date column is treated as unreadable.
- Floating point is left out: amounts and running sums are exact reals, so rounding in `cumsum` is not captured.
- Empty page cells, which pandas reads as NaN, are left out; every cell is text, a number or a date.
- Cells.ParseNumber: the model accepts an optional sign followed by digits with at most one dot. It does not capture `to_numeric`'s exponents, `inf`/`nan` spellings, or surrounding whitespace. Nor does it capture empty text, which `to_numeric` reads as NaN. Such text arises from a cell `,`, which the separator rewrite empties, or from an empty text cell. The model rejects it.
- Cells.CleanAmountFails: a cell whose rewritten text is empty counts here as a failing cell, so the whole cleaning fails with `NotNumeric`. `to_numeric` instead reads that cell as NaN and the cleaning goes on. NaN is not modelled.
- Frames.Get: with duplicate labels, pandas returns all matching columns. The model takes the first one.
- Frames.Select: with duplicate labels, `df[["Date", "Total"]]` returns every column carrying one of the labels. The model takes the first column for each label.
- Frames.Drop: when several labels are missing, pandas lists them all in one KeyError. The model reports the first.
- Normalise.CleanOutcome: pandas reports a failing cell from the first column that fails. The model states only that the error names some failing cell of the money columns.
- Pandas index alignment in column assignment is left out: every column is positional, and rows match by position.
- The code appends `Date` as the last column of the cleaned table, because `df["Date"] = ...` runs after the drop. The model follows the code.
- A page no longer than its footer leaves an empty flow, and `fetch` then fails at `etf_flow.Date[0]`, modelled as `NoRows`. The model follows the code here too.
- The Total rename matches only `Total - Unnamed: 10_level_1`, so the Total column is renamed only in position 10 (`Headers.TotalRenamedOnlyAtTen`). A header such as `[("FamilyX","FundA"), ("FamilyX","FundB"), ("Total","")]` therefore keeps the label `Total - Unnamed: 2_level_1`. Its fund list also skips `FundA`, because the code drops the first remaining column as the date column.
