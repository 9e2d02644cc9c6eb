# Budget tracker ledger, modelled in Dafny

`budget_tracker_with_savings.py` is a Streamlit budget tracker that keeps its
transactions in a Google Sheet, one row per transaction with the columns
`Date`, `Type`, `Category`, `Description` and `Amount`. Behind the widgets it
has a small ledger engine, written as top-level pandas expressions. This
project models that engine and proves properties of the model.

The engine does the following:

- It loads the sheet into a frame. A frame without a `Date` column is an
  error.
- It computes a cleaned category key from each `Category` label.
- It sums `Amount` by `Type` into the all-time savings and the current
  month's income, expense and net.
- It filters the rows of one day and of one month, for the delete list and
  for the daily and monthly reports.
- It offers the ledger's months in a selector, starting on the latest.
- It writes to the sheet: it appends a new transaction, deletes the selected
  row of today, and deletes all of today's rows from the bottom up.

The modules follow that structure:

- `Wrappers` holds `Option` and `Result`.
- `Text` holds decimal digit strings and Python's string order.
- `Calendar` holds dates, the monthly period key, its `"YYYY-MM"` label and
  ISO dates.
- `Categories` holds the two vocabularies and the category key.
- `Ledger` holds the masks, filters, sums, headline figures, reports and the
  month selector. It is pure functions and lemmas.
- `Store` holds the loader and the `Sheet` class with `AppendRow` and
  `DeleteRows`. It also holds the three write operations as methods, among
  them the reset-today loop with its invariant.
- `LedgerExample` holds one worked example of the headline figures.

"Today" is a parameter everywhere. Amounts are whole cents (`nat`).

An empty sheet is an error, not a ledger with zero totals. A sheet
with a header row but no data rows makes `get_all_records()` return `[]`.
The frame built from that has no columns at all, so the app takes the
"'Date' column not found" error path; it does not show zero totals. The
model follows the code. `Store.Load` fails with `MissingColumn("Date")` for
an empty sheet. Deleting the last row (`Store.DeleteSelected`, `Store.ResetToday`)
therefore leads to that error on the next load, and the contracts of both
methods say so.

## Model

| member | source | states |
|---|---|---|
| Categories.TrailingRun | budget_tracker_with_savings.py:61 | what `([\w\s]+)$` captures: the longest suffix made only of word and space characters; the character before it, if any, is neither |
| Categories.Lower | budget_tracker_with_savings.py:61 | `str.lower` maps each character and keeps the length |
| Categories.Strip | budget_tracker_with_savings.py:61 | `str.strip` removes exactly the leading and trailing spaces and leaves no space at either end |
| Categories.CleanCategory | budget_tracker_with_savings.py:61 | the key is missing exactly when the label is empty or ends in a character that is neither a word nor a space character |
| Categories.CleanCategoryIsKey | budget_tracker_with_savings.py:61 | every key holds only lowercase word characters and spaces, with no space at either end |
| Categories.CleanCategoryIdempotent | budget_tracker_with_savings.py:61 | cleaning a non-empty key gives the same key back |
| Categories.IncomeCategoryKeys | budget_tracker_with_savings.py:26 | each income label cleans to its name without the emoji, in lower case ("🏦 Salary" gives "salary") |
| Categories.ExpenseCategoryKeys | budget_tracker_with_savings.py:27 | each expense label cleans to its lower-case name; "🔧 Car Repairs/Maintenance" gives "maintenance", because the `/` ends the run |
| Calendar.FormatDate | budget_tracker_with_savings.py:150 | `str(trans_date)` is ten characters with dashes at positions 4 and 7; `Calendar.DateRoundTrip` and `Calendar.ParseDateCanonical` make it the inverse of `Calendar.ParseDate` |
| Calendar.ParseDate | budget_tracker_with_savings.py:56 | a date cell that reads as a date gives a valid calendar day |
| Calendar.DateRoundTrip | budget_tracker_with_savings.py:150 | the ISO text `str(trans_date)` written by the app reads back as the same date |
| Calendar.ParseDateCanonical | budget_tracker_with_savings.py:56 | the only text that reads as a given date is that date's ISO form |
| Calendar.MonthKey | budget_tracker_with_savings.py:67 | the monthly period key decodes back to the date's year and month |
| Calendar.SameMonthKey | budget_tracker_with_savings.py:67-69 | two dates share a month key exactly when they share year and month |
| Calendar.MonthKeyExamples | budget_tracker_with_savings.py:67-69 | 2024-03-01 and 2024-03-31 share a key; 2024-03-31 and 2024-04-01 do not |
| Calendar.MonthLabel | budget_tracker_with_savings.py:182 | `str(period)` is seven characters, "YYYY-MM" |
| Calendar.ParseMonthLabel | budget_tracker_with_savings.py:183 | `pd.Period(selected_month)`: a label that reads gives the key of the label's year and month |
| Calendar.MonthLabelCanonical | budget_tracker_with_savings.py:183 | the only text that reads as a month of years 1 to 9999 is that month's own label |
| Calendar.MonthLabelRoundTrip | budget_tracker_with_savings.py:182-183 | `pd.Period(str(p))` gives back `p` |
| Calendar.MonthLabelInjective | budget_tracker_with_savings.py:182 | distinct months have distinct labels |
| Calendar.MonthLabelOrder | budget_tracker_with_savings.py:182 | string order of labels is calendar order of months, in both directions |
| Calendar.KeyOrder | budget_tracker_with_savings.py:182 | month keys compare as (year, month) pairs |
| Text.LexLess | budget_tracker_with_savings.py:182 | Python's `<` on `str`, which `sorted` uses; it has no contract of its own, and the three lemmas below make it a strict total order |
| Text.LexTransitive | budget_tracker_with_savings.py:182 | the string order is transitive |
| Text.LexTotal | budget_tracker_with_savings.py:182 | of two different strings, one comes first |
| Text.LexAsymmetric | budget_tracker_with_savings.py:182 | no two strings come before each other, so no string comes before itself |
| Text.DigitsOrder | budget_tracker_with_savings.py:182 | on equal-length digit strings the string order is the numeric order, and equal values mean equal text |
| Ledger.Matches | budget_tracker_with_savings.py:63 | the boolean masks `df['Type'] == k`, `df['Date'] == d` and `df['Month'] == p` and their combinations; it has no contract of its own, and `Ledger.WhereMembers` and `Ledger.WhereOne` state what filtering by it keeps |
| Ledger.Where | budget_tracker_with_savings.py:63-64 | `rows[mask]` keeps at most the rows it is given |
| Ledger.WhereMembers | budget_tracker_with_savings.py:63-64 | every row `rows[mask]` keeps matches the mask, and no matching row is dropped |
| Ledger.WhereAppend | budget_tracker_with_savings.py:63-64 | filtering distributes over concatenation, so ledger order is kept |
| Ledger.WhereOne | budget_tracker_with_savings.py:157 | a single row is kept exactly when it matches |
| Ledger.WhereWhere | budget_tracker_with_savings.py:72-73 | filtering a filtered frame is filtering by both masks |
| Ledger.WherePartition | budget_tracker_with_savings.py:70 | a mask and its negation split the rows, with none lost and none duplicated |
| Ledger.WhereEmpty | budget_tracker_with_savings.py:186 | `.empty` holds exactly when no row matches |
| Ledger.DayRows | budget_tracker_with_savings.py:157 | the rows of a day are exactly the ledger rows dated that day |
| Ledger.Sum | budget_tracker_with_savings.py:63-64 | `.sum()` of `Amount` is zero exactly when every amount is zero; `Ledger.SumAppend` and `Ledger.SumSplit` add it up over parts |
| Ledger.SumAppend | budget_tracker_with_savings.py:63-64 | `.sum()` of concatenated rows is the sum of the parts |
| Ledger.TotalsOf | budget_tracker_with_savings.py:63-65 | net is income minus expense |
| Ledger.TotalsOfRow | budget_tracker_with_savings.py:63-64 | one row adds its amount to income if its type is exactly "Income", to expense if exactly "Expense", and to neither otherwise |
| Ledger.TotalsAppend | budget_tracker_with_savings.py:63-65 | income, expense and net add up over concatenated ledgers |
| Ledger.SumSplit | budget_tracker_with_savings.py:63-64 | the sum over the rows equals the sum over a mask plus the sum over its negation |
| Ledger.TotalsSplit | budget_tracker_with_savings.py:63-74 | the totals of a slice and of the rest add up to the totals of all rows |
| Ledger.Summarise | budget_tracker_with_savings.py:63-74 | savings is all-time income minus all-time expense, and the month's net is its income minus its expense |
| Ledger.MonthTotalsMeaning | budget_tracker_with_savings.py:67-74 | the month's income and expense are the sums over exactly the rows of today's month with that type |
| Ledger.SavingsIgnoresToday | budget_tracker_with_savings.py:63-65 | savings does not depend on the date it is viewed on |
| Ledger.SavingsSplitsAtMonth | budget_tracker_with_savings.py:63-74 | savings is this month's net plus the net of every other month |
| Ledger.MonthTotalsAfterAppend | budget_tracker_with_savings.py:63-74 | a new row of another month leaves the month's figures alone; a row of this month, or of any month for savings, moves them by its own net |
| Ledger.ReportFor | budget_tracker_with_savings.py:178-189 | the report fails exactly when the month label does not parse, says "no data" exactly when no row is in scope, and otherwise has net = income − expense |
| Ledger.ReportMeaning | budget_tracker_with_savings.py:186-188 | the report's income and expense are the sums over the rows in scope with that type |
| Ledger.CurrentMonthReport | budget_tracker_with_savings.py:183-189 | the monthly report of today's month equals the dashboard's monthly figures |
| Ledger.MonthKeys | budget_tracker_with_savings.py:67 | the `Month` column holds each row's month key, one per row |
| Ledger.Labels | budget_tracker_with_savings.py:182 | `astype(str)` labels each key |
| Ledger.Unique | budget_tracker_with_savings.py:182 | `unique()` keeps every value once and no other value |
| Ledger.UniqueLabelsCount | budget_tracker_with_savings.py:182 | there are as many distinct labels as distinct periods, so the default index is the last option |
| Ledger.Insert | budget_tracker_with_savings.py:182 | insertion keeps string order and adds exactly the one element |
| Ledger.SortDistinct | budget_tracker_with_savings.py:182 | sorting distinct strings gives a strictly ascending list |
| Ledger.LabelsOfLedger | budget_tracker_with_savings.py:182 | a label is in the `Month` column's labels exactly when it is the month of some row |
| Ledger.Sort | budget_tracker_with_savings.py:182 | `sorted` gives an ascending permutation |
| Ledger.MonthOptionsSpec | budget_tracker_with_savings.py:182 | the options are the distinct months of the ledger, each once, strictly ascending |
| Ledger.MonthOptionsChronological | budget_tracker_with_savings.py:182-183 | every option parses back, and later options are later months |
| Ledger.MonthOptions | budget_tracker_with_savings.py:182 | the selector has options exactly when the ledger has rows; `Ledger.MonthOptionsSpec` says which options and in which order |
| Ledger.OptionCount | budget_tracker_with_savings.py:182 | there is one option per distinct period of the `Month` column, so `len(df['Month'].unique()) - 1` is the index of the last option |
| Ledger.DefaultMonth | budget_tracker_with_savings.py:182 | `index=len(df['Month'].unique()) - 1` lands on the last option, and there is a default exactly when the ledger has rows |
| Ledger.DefaultMonthIsLatest | budget_tracker_with_savings.py:182-183 | the default option reads back through `pd.Period` as a month, and no row has a later month |
| LedgerExample.AprilOverview | budget_tracker_with_savings.py:63-74 | salaries in March and April and a meal in April, seen in April: the month shows 5000.00 income, 200.00 expense and 4800.00 net, while savings is 9800.00 |
| Store.Encode | budget_tracker_with_savings.py:150 | the row written by `append_row` decodes back to the transaction |
| Store.Decode | budget_tracker_with_savings.py:56 | a row that loads has a valid date |
| Store.DecodeCanonical | budget_tracker_with_savings.py:56 | a row that loads is exactly the row the app would write for it |
| Store.DecodeAll | budget_tracker_with_savings.py:56 | the conversion succeeds exactly when every date cell reads, and then row `i` decodes to transaction `i`; otherwise the error names the first unreadable row |
| Store.Load | budget_tracker_with_savings.py:52-63 | the load fails with a missing `Date` exactly when the sheet has no data rows or no `Date` header; it succeeds exactly when all four columns are present and every date reads; the result is the decoded rows |
| Store.LoadAppend | budget_tracker_with_savings.py:150 | after an append the next load is the old ledger with the transaction at its end |
| Store.KeepIndices | budget_tracker_with_savings.py:168-169 | the reference for a batch delete: the rows whose index is not deleted, in order, never more than before; `Store.RemoveIsKeep`, `Store.RemoveBelow` and `Store.KeepMatching` give its meaning |
| Store.RemoveAt | budget_tracker_with_savings.py:162 | removing position `i` keeps the rows before it and moves the rows after it up by one |
| Store.RemoveIsKeep | budget_tracker_with_savings.py:162 | a single delete is keeping every index but one |
| Store.KeepAbove | budget_tracker_with_savings.py:168-169 | deleting only positions past the end changes nothing |
| Store.RemoveLast | budget_tracker_with_savings.py:168-169 | deleting the last row, when nothing before it was deleted, is keeping every index but the last |
| Store.RemoveAtAppend | budget_tracker_with_savings.py:168-169 | deleting a row in the first part of a concatenation leaves the second part untouched |
| Store.RemoveBelow | budget_tracker_with_savings.py:168-169 | deleting a position below all earlier deletions deletes the row originally there |
| Store.DecodeKeep | budget_tracker_with_savings.py:162-169 | deleting the same indices from the sheet rows and from the ledger keeps the two in step |
| Store.LoadKeep | budget_tracker_with_savings.py:162-169 | after deletions the sheet loads as the ledger without those rows, or fails like an empty sheet when none is left |
| Store.MatchingIndices | budget_tracker_with_savings.py:157-159 | `today_data.index` holds exactly the indices of the matching rows, ascending |
| Store.KeepMatching | budget_tracker_with_savings.py:168-169 | deleting the indices of the matching rows leaves exactly the rows the negated mask selects |
| Store.Descending | budget_tracker_with_savings.py:168 | `sorted(..., reverse=True)` gives the same indices, strictly descending |
| Store.AscendingOrderDrifts | budget_tracker_with_savings.py:168-169 | deleting top-down would remove the wrong second row, which is why the loop runs bottom-up |
| Store.DeleteNext | budget_tracker_with_savings.py:168-169 | one loop step deletes, from the shrunken sheet, the row the original index named |
| Store.ResetTodayStart | budget_tracker_with_savings.py:168 | the loop starts with nothing deleted, and every index it visits is a sheet row |
| Store.ResetTodayEnd | budget_tracker_with_savings.py:168-169 | once all indices are visited, the sheet loads as the ledger without today's rows |
| Store.Sheet.constructor | budget_tracker_with_savings.py:16 | the sheet holds the given header and rows |
| Store.Sheet.AppendRow | budget_tracker_with_savings.py:150 | `append_row` adds one last data row and changes nothing else |
| Store.Sheet.DeleteRows | budget_tracker_with_savings.py:162 | `delete_rows(index)` removes data row `index − 2` and moves the rows below up; a blank row below the data changes no record |
| Store.AddTransaction | budget_tracker_with_savings.py:150 | the new row is written last, and a ledger that loaded before loads afterwards with the transaction at its end |
| Store.DeleteSelected | budget_tracker_with_savings.py:159-162 | deleting physical row `selected + 2` removes exactly ledger row `selected`; the next load is the ledger without it, or the empty-sheet error when it was the only row |
| Store.ResetToday | budget_tracker_with_savings.py:166-169 | visiting today's indices from the highest down removes exactly today's rows and keeps the rest in order; the next load is the ledger of the other days, or the empty-sheet error when none is left |

## Left out

- Google Sheets authentication and the network (lines 12–16) are not modelled. The worksheet is the in-memory `Store.Sheet`: a header row plus data rows. Failed API calls and the `st.error` around them are not modelled either.
- The Streamlit page, the widgets, the CSS and the HTML/JavaScript counters with their floating-point animation (lines 21–49, 76–136, 139–198) are UI and are not modelled. The widgets' choices become parameters: the report scope, the selected index, the transaction to add.
- Amounts are exact whole cents (`nat`). The float sums of pandas and the `%.2f` formatting are not modelled. The entry form's `min_value=0.0` makes amounts non-negative, and the model keeps that.
- `datetime.date.today()` reads the clock; it is the `today` parameter.
- `pd.to_datetime` accepts many date spellings; the model reads only ISO `YYYY-MM-DD`, which is what the app writes. Dates cover Python's range, years 1 to 9999. The narrower nanosecond range of pandas timestamps (years 1677 to 2262) is not modelled. Empty date cells are not modelled either. The model rejects them as unreadable dates (`Store.LoadError.BadDate`). pandas reads them as `NaT` without an error, so such rows load. Their `Month` is then `NaT`, which `astype(str)` turns into the text "NaT". That sorts after every digit label, so the source offers it as the selector's last option and its default, and that default report shows "No transactions for this period." `Ledger.DefaultMonthIsLatest` therefore describes only sheets without empty date cells.
- Categories.IsWordChar: `\w` is restricted to ASCII letters, digits and `_`. Unicode letters (such as `é`), which Python's `re` also treats as word characters, are not modelled.
- Categories.IsSpace: `\s` and `str.strip` are restricted to ASCII whitespace, so `\x85`, `\xa0` and other Unicode spaces are not modelled.
- Categories.Lower: `str.lower` is restricted to ASCII `A`–`Z`, so Unicode case mappings are not modelled.
- Non-text cells in `Category` or `Type`, and non-numeric cells in `Amount`, are not modelled. The model's cells are text and cents.
- The model assumes the data cells are in the column order that `append_row` writes (Date, Type, Category, Description, Amount), whatever the header says. The header is consulted only for the presence of the four columns the dashboard reads. `Description` is not required, because only the display reads it.
- Store.Sheet.AppendRow: writing into a sheet with no header row is not modelled. In the app that row would become the header. The model's sheet always has its header.
- Store.Sheet.DeleteRows: deleting physical row 1, the header, is excluded by its precondition, since the app never does it. A row index past the sheet's grid, which the Sheets API rejects, is not modelled.
- Calendar.ParseMonthLabel: only the selector's own `YYYY-MM` labels are read. `pd.Period` also reads other spellings, such as "2024-3" or the daily "2024-03-15"; the model reports those as `Ledger.Report.BadMonth`. The app never passes them, because the selector offers only `Calendar.MonthLabel` strings.
- Ledger.DefaultMonth: the selector's `index=-1` for an empty ledger is not modelled (`None`), because an empty sheet fails to load before the selector is built.
- Concurrent writers to the sheet, and the `st.rerun()` that reloads it after each write, are not modelled. Each write method states the next load instead.
