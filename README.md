# EventIT customer and fee pipelines in Dafny

This project models the data-cleaning and query core of the EventIT
visualisation scripts. They come in three forms over the same two exports:

- `app.py`, a Streamlit app with two tabs.
- `gebyr-visualisering.py`, a Dash dashboard over the fee file.
- `visualiseringer.py`, a matplotlib script over the customer sheet.

**Customer sheet.** Each script:

- drops the entirely empty columns;
- chooses the revenue column ("Indtjening" if present, else the first column whose lower-cased name contains "indtjening");
- cleans money columns: keeps only digits, comma, dot and minus, turns each comma into a dot, and reads the text as a decimal, giving null when it is not one;
- derives "Frakturer" (revenue minus fee), the start year and the paid/free type;
- drops the rows without a name or a revenue.

The views then filter customers, rank them with `nlargest`, count contract types and paid/free customers, and sum subscriptions per start year.

**Fee file.** The lines without a start date or a parseable fee are dropped, and each kept line gets its year. The 25 organizers with the largest summed fee are ranked and their rows kept. The callbacks sum fees per year for a case-blind organizer search, and per (year, organizer) for the chosen organizers.

**Module layout.**

- `Money`: the cleaning and the decimal grammar.
- `Text`: case folding, substring search, join and split, and string order.
- `Rows`: masks, selection and `unique`.
- `Ranking`: `nlargest` with `keep="first"`, rows with an empty key last.
- `Grouping`: group sums, value counts and the top keys of a grouping.
- `Frames`: a pandas frame as columns, index labels and a map from column to cells.
- `Fees`: the fee table, shared by `app.py` and `gebyr-visualisering.py`.
- `Customers`: the customer-sheet logic shared by `app.py` and `visualiseringer.py`.
- `App`, `GebyrVisualisering` and `Visualiseringer`: one pipeline per script, each kept separate.

**Form of the model.** The step-by-step parts are methods that reassign a frame variable, in the source's order, and stop at the first missing column with the error the source raises. These are the two loaders and the script. Their contracts tie each step's result to the step before it. The query pipelines are functions. The app.py tabs for the contract pie, the subscription growth and the paid/free pie (app.py:141-205) apply the shared members to the filtered frame directly: Customers.Distribution on "Kontrakttype" with the separator "<br>", Customers.Growth, and Customers.AddPaidType into "Type" followed by Customers.Distribution on it. visualiseringer.py uses the same members with the separator "\n" and the column "Abonnementstype".

Frames are values. A frame is never shared between two variables in these scripts, so a column assignment is a new frame assigned to the same variable.

Money is exact: `real` values parsed from the cleaned text. Dates come from a parser given as a parameter (`yearOf`), of which only the year is used.

## Model

| member | source | states |
|---|---|---|
| Money.CleanTextChar | app.py:23-24 | one character cleans to nothing unless it is a digit, comma, dot or minus, and a comma becomes a dot |
| Money.CleanTextConcat | app.py:23-24 | cleaning works character by character: the cleaning of a concatenation is the concatenation of the cleanings |
| Money.CleanTextIdempotent | app.py:23-24 | cleaned text holds only digits, dots and minus signs, and cleaning it again changes nothing |
| Money.ParseDecimal | app.py:25 | the numeric conversion gives a number exactly when the text is an optional minus, then digits with at most one dot, and at least one digit |
| Money.ParseUnsignedIff | app.py:25 | an unsigned decimal reads as a number if and only if it has only digits and dots, at most one dot and at least one digit |
| Money.ParseShowNat | app.py:25 | a whole number, printed in decimal and with a minus in front, reads back as that number and its negation |
| Money.CleanMoney | app.py:20-26 | a money cell gives a number exactly when its cleaned text is a decimal literal, and null otherwise; it never fails |
| Money.CleanDigits | app.py:23-24 | a text of digits is left as it is by the cleaning |
| Money.CleanNoise | app.py:23-24 | a text without digits, commas, dots or minus signs (" kr") cleans to nothing |
| Money.ParseWholeFrac | app.py:25 | digits, a dot and digits read as the whole part plus the fraction |
| Money.DecimalCommaAmount | app.py:20-26 | an amount written with digits, a decimal comma, digits and trailing text such as " kr" cleans to its exact value, and with a leading minus to its negation |
| Money.CleanMarks | app.py:23-25 | the cleaned text has one dot for every dot and every comma of the cell |
| Money.TwoSeparatorsAreNull | app.py:20-26 | a cell with two dots or commas, such as a thousands dot next to the decimal comma, cleans to null |
| Money.ThousandsDotExample | app.py:20-26 | "1.500,00 kr" cleans to null |
| Money.EmptyCellExample | app.py:22 | an empty cell, printed as "nan", cleans to null |
| Rows.And | app.py:111 | the combined mask is true exactly where both masks are |
| Rows.TrueIndices | app.py:114 | the selected positions are exactly those whose mask bit is set, in increasing order |
| Rows.SelectExact | app.py:114 | selecting by a mask keeps exactly the masked elements, each in its original order |
| Rows.Unique | app.py:237 | the distinct values hold each value of the input once and nothing else |
| Rows.UniqueOrder | app.py:237 | the distinct values come in the order of their first appearance |
| Ranking.TopN | app.py:135 | the ranked part of nlargest: min(n, rows with a key) positions, all with a key, keys non-increasing, equal keys in row order; no row left out has a larger key, and among equal keys the earlier rows are kept |
| Ranking.NullsBelow | app.py:210 | exactly the positions with an empty key, in increasing order, as many as the rows without a key |
| Ranking.NLargestPositions | app.py:210 | nlargest returns min(n, rows) positions, no position twice: first the ranked positions of TopN, then positions with an empty key, the earliest ones, in row order |
| Ranking.NoNullsNoTail | app.py:135 | with a key in every row, nlargest returns the ranked positions alone |
| Grouping.GroupSum | app.py:172 | one group per distinct key, keys strictly ascending; each group's total is its key's sum, and the totals add up to the sum of all values |
| Grouping.GroupTotals | app.py:172 | every group's total is the sum of the values carrying its key |
| Grouping.ValueCounts | app.py:143 | one entry per distinct value, each with its number of occurrences, counts non-increasing and adding up to the number of values |
| Grouping.DistinctKeys | gebyr-visualisering.py:20 | the distinct values, each once, are exactly the values of the input |
| Grouping.DistinctKeysSorted | gebyr-visualisering.py:20 | the distinct values come out strictly ascending |
| Grouping.TopKeys | app.py:74 | at most n distinct keys, totals non-increasing; no key left out has a larger total, and among equal totals the smaller key wins |
| Grouping.NamesForAre | app.py:147-148 | every name listed for a key comes from a row with that key |
| Text.ContainsIff | app.py:110 | the substring search succeeds exactly when the pattern occurs at some position |
| Text.ContainsIgnoreCase | app.py:110 | the search succeeds exactly when the lower-cased search occurs at some position of the lower-cased name; the empty search matches every name |
| Text.CaseBlind | app.py:110 | folding the case of the name or of the search does not change the result |
| Text.SplitPieces | visualiseringer.py:83 | no piece of a split holds the separator |
| Text.SplitJoin | visualiseringer.py:83-85 | splitting the newline-joined names gives the names back when none holds a line break |
| Text.JoinAppend | visualiseringer.py:87 | appending a line break and one more piece to a joined text is joining one more piece |
| Frames.FromSheet | app.py:14 | the frame read from a sheet has its header's columns, rows labelled 0, 1, 2, …, and each cell as read |
| Frames.DropEmptyColumns | app.py:15 | exactly the columns with a non-empty cell remain, with unchanged contents and rows |
| Frames.Assign | app.py:20 | a column assignment replaces that column, or appends it, and leaves the other columns as they were |
| Frames.SelectRows | app.py:114 | boolean row selection keeps the masked rows of every column in order, with their labels |
| Frames.NotNullMask | app.py:55 | a row passes exactly when none of the named columns is empty in it |
| Frames.DropNa | app.py:55 | exactly the rows with no empty cell among the named columns are kept, in order, with their labels and cells; afterwards no named column has an empty cell |
| Frames.MoneyCell | app.py:20-26 | a text cell becomes the number its cleaned text reads as, and empty exactly when it reads as none; a number keeps its value; an empty cell ("nan") and a date become empty |
| Frames.MoneyColumn | app.py:20-26 | the cleaned column cleans each cell on its own |
| Frames.DateCell | app.py:52 | a text cell becomes a date exactly when the parser gives it a year, and then that year; a date stays as it is; anything else becomes empty |
| Frames.DateColumn | app.py:52 | date conversion works cell by cell |
| Frames.YearCell | app.py:53 | the year is a whole number exactly for a date, and then the date's own year; an empty date gives an empty year |
| Frames.YearColumn | app.py:53 | the year column takes each row's year |
| Frames.SubCell | app.py:49 | a difference is a number exactly when both sides are numbers, and then it is their difference; otherwise it is empty |
| Frames.SubColumn | app.py:49 | column subtraction works row by row |
| Frames.NLargest | app.py:210 | the ranked frame holds min(n, rows) rows: first the min(n, rows with a value) rows with a value, in non-increasing order, then rows whose value is empty, chosen as nlargest with keep="first" chooses them |
| Frames.NLargestNoEmpty | app.py:135 | with a value in every row, nlargest keeps min(n, rows) rows, all ranked, all with a value |
| Fees.FeeValue | app.py:71 | a fee text becomes a number exactly when it is a decimal literal |
| Fees.CleanFees | app.py:71-73 | the cleaned fee table holds exactly the lines with a start date and a parseable fee, in file order, each with its organizer, its start year and its fee |
| Fees.OrganizerFeesKeys | app.py:74 | the organizers summed are exactly those of the rows with an organizer |
| Fees.TopOrganizers | app.py:74 | at most n distinct organizers, all present, summed fees non-increasing; every organizer left out sums to at most each chosen one's fee, and on equal sums the earlier name in sorted order is kept; fewer than n only when every organizer is in |
| Fees.IsinMask | app.py:75 | a row is selected exactly when its organizer is non-null and among the names |
| Fees.Restrict | app.py:75 | the restricted table holds exactly the rows of the named organizers, in row order |
| Fees.FilterMask | app.py:227-230 | a row passes exactly when its organizer contains the search, case-blind, and its year is at most the bound |
| Fees.Filter | app.py:227-230 | the filtered table holds exactly the matching rows, in row order |
| Fees.YearTotals | app.py:231 | one point per year present, ascending; each is that year's fee sum, and the points add up to the total fee |
| Fees.FilteredYearTotals | app.py:227-231 | one point per year among the matching rows, ascending; each is that year's sum over the matching rows, and the points add up to their total fee |
| Fees.PairFeesKeys | app.py:244 | the (year, organizer) pairs summed are exactly those of the rows with an organizer |
| Fees.PairTotals | app.py:244 | one point per (year, organizer) pair present, sorted by year then organizer, each that pair's fee sum |
| Fees.ChosenKeys | app.py:243-244 | the pairs of the chosen organizers' rows are exactly the pairs of a chosen organizer that occur in the table |
| Fees.ChosenTotals | app.py:243-244 | the chosen organizers' points: one per (year, chosen organizer) pair present, sorted, each that pair's fee sum |
| Customers.RevenueMask | app.py:18 | the mask marks exactly the revenue columns |
| Customers.IndtjeningIsRevenue | app.py:19 | "Indtjening" is itself a revenue column |
| Customers.NotRevenue | app.py:18 | a name whose lower-cased form has no "i" is not a revenue column |
| Customers.OtherNamesAreNotRevenue | app.py:18 | "Name", "Kontrakttype", "Start Dato" and "Start År" are not revenue columns, so the chosen column is never one of them |
| Customers.KontraktIsNotRevenue | app.py:18 | "Kontrakttype" is not a revenue column |
| Customers.ChooseRevenueColumn | app.py:18-19 | none exactly when no column is a revenue column; otherwise a revenue column of the frame, "Indtjening" when present, else the first revenue column |
| Customers.Kept | app.py:14-15 | the sheet without its empty columns has one text column per kept header and rows labelled by sheet row |
| Customers.KundeMask | app.py:55 | a row is kept exactly when it has a name and its revenue cleans to a number |
| Customers.MaskAgrees | app.py:55 | dropping rows on the cleaned name and revenue is dropping them on the sheet's own name and revenue cells |
| Customers.MoneyCellIdempotent | app.py:20-26 | cleaning an already cleaned money cell changes nothing, except for floats that print with an exponent |
| Customers.MoneyColumnIdempotent | app.py:30-36 | cleaning an already cleaned column changes nothing, so a revenue column that is also the subscription or fee column is cleaned once in effect, except for floats that print with an exponent |
| Customers.TextKeysFacts | app.py:143 | the counted keys are exactly the column's text values, one per non-empty row |
| Customers.NonEmptyAll | visualiseringer.py:60-61 | a column without empty cells has as many non-empty cells as rows |
| Customers.Distribution | app.py:143-151 | one slice per distinct contract value, counts non-increasing and adding up to the non-empty rows; each slice's count is the number of its rows, and its text is their names in row order, joined by the separator |
| Customers.AddPaidType | app.py:180 | the new column is "Betalt" exactly when the subscription, read as 0 when empty, is positive, and "Gratis" otherwise, including negatives; the column is replaced in place or appended last, and no other column changes |
| Customers.YearValuesKeys | app.py:172 | the summed years are exactly the start years present |
| Customers.Growth | app.py:172 | one point per start year present, ascending; each is that year's subscription sum with empty values as 0, and the points add up to the total |
| App.MoneyColumns | app.py:20-46 | the revenue, subscription and fee columns are cleaned and nothing else changes |
| App.Derived | app.py:49-53 | "Frakturer" is revenue minus fee, "Start Dato" is converted and "Start År" is its year; nothing else changes |
| App.CleanedFacts | app.py:20-53 | the cleaned frame as a whole: the three money columns cleaned from the sheet, the derived columns, and every other column as read |
| App.LoadKundeData | app.py:13-56 | the loader fails as the source does, in order: no revenue column, no subscription column, no fee column, no "Start Dato", no "Name"; otherwise the rows kept are exactly the sheet rows with a name and a cleaned revenue, in order, each carrying the cleaned and derived cells |
| App.LoadedRows | app.py:55 | after dropping rows, each kept row carries the cleaned and derived cells of its sheet row |
| App.WantedMask | app.py:110-113 | a row passes exactly when its name contains the search case-blind, its start year with empty read as 0 is at most the bound, and, for a non-empty selection, its contract type is selected |
| App.FilterCustomers | app.py:110-114 | the filtered customers are the rows the combined mask keeps; with no "Kontrakttype" column it fails |
| App.FilterKeepsExactly | app.py:110-114 | the kept rows are exactly the wanted rows, in order, each unchanged |
| App.Top25 | app.py:135 | the rows of dff at the positions nlargest picks: min(25, customers) rows, those with a revenue first, revenue non-increasing, none left out larger and the earlier row kept on a tie, then those without; with a revenue in every row (as the loader leaves it), every row shown has one |
| App.Top10 | app.py:210 | the rows of dff at the positions nlargest picks: min(10, customers) rows, those with a "Frakturer" first, non-increasing, none left out larger and the earlier row kept on a tie, then those whose "Frakturer" is empty (no fee number), the earliest first, in row order |
| App.LoadGebyrData | app.py:63-76 | the cleaned fee table as cleaned from the file, and exactly its rows whose organizer is among the top 25, in row order |
| App.OrganizerNames | app.py:237 | the options are exactly the organizers of the top-25 rows |
| App.Options | app.py:237-238 | distinct options, exactly the top-25 organizers, in order of first appearance; the default is the first min(5, options) of them |
| App.ChosenPlot | app.py:242-256 | an empty choice gives the hint text; otherwise the chosen organizers' per-(year, organizer) sums |
| GebyrVisualisering.Years | gebyr-visualisering.py:20 | the slider's years are strictly ascending and exactly the years in the table |
| GebyrVisualisering.Bounds | gebyr-visualisering.py:21 | none exactly for no years; otherwise two years of the list with every year between them |
| GebyrVisualisering.BoundsOfAscending | gebyr-visualisering.py:20-21 | on the ascending year list the bounds are its first and its last year |
| GebyrVisualisering.NoRowsNoYears | gebyr-visualisering.py:20-21 | the year list is empty exactly when the table is |
| GebyrVisualisering.NoSurvivors | gebyr-visualisering.py:16 | the cleaned table is empty exactly when no line has both a start date and a parseable fee |
| GebyrVisualisering.TopKunder | gebyr-visualisering.py:24-30 | at most 25 distinct organizers, summed fees non-increasing, every organizer left out summing to at most each chosen one |
| GebyrVisualisering.DefaultIsLargest | gebyr-visualisering.py:67 | the default choice is the first min(5, top) organizers, and no organizer outside it earns more than one inside it |
| GebyrVisualisering.Setup | gebyr-visualisering.py:15-31 | start-up: none exactly when no line survives cleaning; otherwise the cleaned table, its ascending years with their first and last as bounds, the top 25 and their rows, and the first five as the default |
| GebyrVisualisering.OpdaterGraf | gebyr-visualisering.py:83-101 | a missing search is ""; the placeholder exactly when no row matches; otherwise the matching rows' per-year sums, non-empty |
| GebyrVisualisering.OpdaterTop25 | gebyr-visualisering.py:108-130 | the placeholder exactly for a missing or empty choice; otherwise the chosen organizers' per-(year, organizer) sums |
| Visualiseringer.AddedNamesAreNotRevenue | visualiseringer.py:12 | "Abonnementstype" and "Betalte Frakturer" are not revenue columns |
| Visualiseringer.LoadCustomers | visualiseringer.py:6-26 | fails with no revenue column, then with no "Name"; otherwise exactly the sheet rows with a name and a revenue, in order, the revenue cleaned to a number and every other cell as read |
| Visualiseringer.CustomerRows | visualiseringer.py:26 | after the drop, each kept row has a name and a numeric revenue, and is its sheet row otherwise |
| Visualiseringer.ContractsAreText | visualiseringer.py:60 | the loaded contract types are text or empty |
| Visualiseringer.Grouped | visualiseringer.py:62 | the grouped names map each slice's value, and nothing else, to that slice's joined names |
| Visualiseringer.CustomerSteps | visualiseringer.py:6-62 | fails as the script does with no revenue column, no "Name" or no "Kontrakttype"; otherwise the loaded customers, their top 25 by revenue, and the contract pie over the rows with a contract type |
| Visualiseringer.ContractCountsCoverRows | visualiseringer.py:60-61 | the contract counts add up to the number of customers with a contract type |
| Visualiseringer.ParseStartDates | visualiseringer.py:114-116 | exactly the rows whose start date parses are kept, in order; each holds that date and its year in "Start År", and is its earlier row otherwise |
| Visualiseringer.DatedRows | visualiseringer.py:114-116 | after the date step every row has a parsed date and a whole start year, and the other cells are unchanged |
| Visualiseringer.CleanSubscription | visualiseringer.py:119-126 | exactly the rows whose subscription cleans to a number are kept, in order, holding that number, and are their earlier rows otherwise |
| Visualiseringer.PaidTypes | visualiseringer.py:151-156 | every row is "Betalt" exactly when its subscription is positive and "Gratis" otherwise; the pie and the grouped names are taken over that column |
| Visualiseringer.BillFrakturer | visualiseringer.py:211-226 | the fee is cleaned and "Betalte Frakturer" is revenue minus fee in every row; the top 10 has at most 10 rows, each with a revenue and a fee and their difference as its value |
| Visualiseringer.PickKeepsBilledRows | visualiseringer.py:223-226 | taking rows keeps every row's revenue-minus-fee relation |
| Visualiseringer.TailSteps | visualiseringer.py:129-226 | fails exactly when there is no fee column; otherwise the yearly sums, the paid/free pie and the net revenue ranking over the cleaned rows |
| Visualiseringer.SubscriptionSteps | visualiseringer.py:112-226 | fails in order with no "Start Dato", no subscription column or no fee column; otherwise the dated rows, the subscribed rows and the later steps over them |
| Visualiseringer.Script | visualiseringer.py:6-226 | the whole script fails at the first absent column in the order the script reads them; otherwise every step's result as above |
| Visualiseringer.Preview | visualiseringer.py:85-87 | the first min(10, names) names, in order, followed by a "…" line exactly when there are more than ten |
| Visualiseringer.ShowNames | visualiseringer.py:85-87 | the preview text, split at line breaks, is the first ten names followed by "…" exactly when there are more than ten |
| Visualiseringer.OnPick | visualiseringer.py:79-88 | the text starts with the slice's value and the number of its names, then the preview of those names |
| Visualiseringer.OnPick2 | visualiseringer.py:173-181 | the text starts with the category, its count and a blank line, then the preview of its names |
| Visualiseringer.ShownCountIsSliceCount | visualiseringer.py:83-88 | when no name holds a line break, the number of names a click shows is the slice's count |

## Left out

- Rendering and UI are not modelled. This covers Streamlit widgets and tabs, the Dash layout and server, plotly and matplotlib figures, hover tooltips, and the placement and removal of annotations. Only the texts the handlers build are modelled.
- The file readers (`read_excel` with its header row, `read_csv` with `;` and its header row) are not modelled. The model starts from a sheet of header and text cells, or from fee lines with organizer, parsed start year and fee text.
- Date parsing (`to_datetime`, `parse_dates`, `dayfirst`) is a parameter `yearOf`.
- Floating point is not modelled. Values are exact decimals, so rounding and precision loss are absent.
- The search is a literal substring with ASCII case folding. `str.contains` reads the search as a regular expression, and Python's `lower` folds all of Unicode.
- Frames.WellFormed: the model assumes distinct header names and full rows. The reader's renaming of duplicate headers is not modelled.
- Fees.FeeValue: `to_numeric` on the fee text is modelled by the same decimal grammar as the money cleaning. Exponents, a leading `+`, surrounding blanks and "inf" are not accepted by the model.
- Frames.MoneyCell: a cell already holding a number is kept as that number. A float that prints with an exponent (such as "1e-05") would clean to another value in the source. It arises only when the revenue column is also the subscription or fee column and is cleaned twice (App.MoneyColumns, Visualiseringer.CleanSubscription, Visualiseringer.BillFrakturer); the model keeps the number (Customers.MoneyCellIdempotent), so for such a float App.MoneyColumns states more than the source does.
- GebyrVisualisering.TopKunder: states no order among equal sums. The source's descending sort is not stable. The app.py ranking (Fees.TopOrganizers) keeps the key order of the grouping, and its contract states that.
- Ranking.TopN: equal keys keep row order in the model, as `nlargest` keeps them when n is below the number of rows (a stable sort). When n is at least the number of rows, pandas sorts with an unstable sort, and the order of equal keys in the result is unspecified. Frames.NLargest, App.Top25, App.Top10 and the visualiseringer.py rankings inherit this choice.
- Grouping.ValueCounts: states no order among equal counts. The model picks key order among them, and pandas does not promise one.
- The app.py slider bounds (`min` and `max` of "Start År" and "År") are not modelled. They raise on an empty or all-null column. The filters take the chosen bound as a parameter. The gebyr-visualisering.py bounds are modelled, with None for the empty case.
- The `Kontrakttype` options of the app.py multiselect are not modelled. They are a UI input, and the filter takes the selection as a parameter.
- The `cache_data` decorator and the printing of tables are left out.
- Text conversion of non-text names (`astype(str)` in the group joins) is not modelled. Names read from the sheet are text.
- Money cleaning follows the code, not a locale-aware reading. "1.234,56 kr" becomes null, because the comma turns into a second dot, not 1234.56 (Money.TwoSeparatorsAreNull).
- Frames are values, so the model does not capture aliasing. Adding a column to a filtered view (app.py:180) is a new frame.
