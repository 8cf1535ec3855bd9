# Sales dashboard aggregation, modelled in Dafny

`dashboard.py` is a Streamlit page over the cleaned sales table. Between its
UI calls it computes the following from the table:

- the rows of the date range picked in the sidebar;
- four KPI figures: total revenue, total profit, average margin and the product with the largest revenue;
- the profit per product (bar chart) and the revenue per product (pie chart);
- two real-time leaderboards:
  - the five products that sold the largest quantity in the trailing seven days;
  - the five customers with the largest revenue in the current month.

This project models that pipeline as pure Dafny functions over a sequence of
sale rows, and proves what each step promises.

- `Sales` (`sales.dfy`) covers the row type and the column operations:
  - selection by a closed time interval, `Between`;
  - selection by key, `Select`;
  - the distinct keys, `Keys`;
  - a column sum, `Total`;
  - one group's sum, `GroupTotal`.

  `GroupTotal` is the reference definition that grouped results are checked against.
- `Grouping` (`grouping.dfy`) covers `groupby(key)[col].sum()`:
  - rows are added one at a time into a result kept in ascending key order, via `AddTo` and `GroupSum`;
  - the accumulation by key and the key sort are therefore one step;
  - the group totals add up to the column total.
- `Ranking` (`ranking.dfy`) covers `sort_values(ascending=False).head(n)`:
  - an insertion sort with an explicit tie-break, `Rank` and `Top`;
  - `idxmax` as the first maximum, `ArgMax`.
- `Calendar` (`calendar.dfy`) covers the proleptic Gregorian calendar:
  - conversion between day numbers and dates;
  - timestamps in seconds since 1970-01-01;
  - the two clock computations used by the page: `Timestamp.normalize()` and `Timestamp(year, month, day=1)`.
- `Dashboard` (`dashboard.py`'s own steps, in `dashboard.dfy`) covers:
  - the date filter;
  - the KPIs;
  - the two windows and leaderboards;
  - `BuildReport`, everything the page shows for one date range and one pair of clock readings.

Representation choices:
- **Timestamps** are integers counting seconds. `DAY` is 86400.
- **Dates from the sidebar** are day numbers. `pd.to_datetime` of a date is
  midnight of that day (`Midnight`).
- **Money and margins** are exact `real`s. Quantities are integers, summed as reals.
- **Empty input.** pandas returns NaN for `mean()` of no rows; the model gives
  `None`. pandas raises for `idxmax` of no rows; the model gives `None`.
- **The script as a whole** stops at line 27 when the date range is empty.
  `ComputeKpis` and `BuildReport` then return `Failure(EmptyDataset)`.
- **The clock** (`pd.Timestamp.today()`, read at lines 111 and 139) is two
  parameters of `BuildReport`: `weekClock`, the raw reading that the weekly
  board normalises to midnight (the source's `today` is that normalised
  value), and `now` for the monthly one.

Behaviour of the code as written, stated by the contracts:
- **The date filter** compares `sale_date` with midnight of the start and
  end days. On the end day, only a sale stamped exactly at midnight is kept
  (`FilterByDate`). If the sale stamps are date-only (midnight), this keeps
  the whole end day; a sale stamped later on the end day is dropped.
- **The trailing window** runs from midnight seven days back to midnight of
  the current day (`TrailingWeek`). If the sale stamps are date-only, it
  covers eight calendar days.
- **Ties on a leaderboard.** pandas' default sort leaves the order of equal
  sums unspecified. The model puts equal sums in ascending key order
  (`Ranking.Outranks`). This is the model's own choice.
- **Ties for the top product.** `idxmax` over the key-ordered groups returns
  the first maximum, which is the lowest product id among equal revenues.

## Model

| member | source | states |
|---|---|---|
| Sales.Between | dashboard.py:114 | a row is kept exactly when it is in the input and `lo <= sale_date <= hi` (both ends included); each row keeps its multiplicity when in the interval and has none otherwise |
| Sales.BetweenAppend | dashboard.py:21 | selection distributes over concatenation, so the kept rows stay in input order |
| Sales.BetweenTwice | dashboard.py:142 | selecting a window from selected rows is one selection by the larger lower bound and the smaller upper bound |
| Sales.Select | dashboard.py:76 | the rows of one key are exactly the input rows with that key, never more rows than the input |
| Sales.SelectCounts | dashboard.py:76 | the rows of one key keep their multiplicity: each counts as often as in the table, rows of other keys not at all |
| Sales.Keys | dashboard.py:76 | the distinct keys of a column; its contract is `Sales.KeysOccur` (a key is in it exactly when some row has it) |
| Sales.Total | dashboard.py:24-25 | `.sum()` of a column; its contract is `Sales.TotalAppend` (additive over any split), and `Grouping.GroupSumsAddUp` ties it to the group sums |
| Sales.GroupTotal | dashboard.py:95 | the sum of a column over the rows of one key (`Total` of `Select`), the reference that `Grouping.GroupSum` is proved against; `Sales.GroupTotalAbsent` gives zero for a key no row has |
| Sales.KeysOccur | dashboard.py:76 | a key is among the distinct keys exactly when some row has it |
| Sales.TotalAppend | dashboard.py:24 | a column sum over a split of the rows is the sum of the parts |
| Sales.GroupTotalAbsent | dashboard.py:95 | a key that no row has sums to zero |
| Grouping.AddTo | dashboard.py:76 | one accumulation step keeps the keys strictly ascending, adds the key (a new entry only when new), and adds the value to that key's total and to no other |
| Grouping.GroupSum | dashboard.py:76 | the keys are exactly the distinct keys of the rows, strictly ascending, one entry each; every entry's total, and the total held for any key, is the sum of the column over the rows with that key; empty exactly for no rows |
| Grouping.AddToSum | dashboard.py:95 | one accumulation step adds exactly its value to the sum of the totals |
| Grouping.GroupSumsAddUp | dashboard.py:95 | the per-product sums add up to the column total: pie chart against `total_revenue` (line 24), profit bars (line 76) against `total_profit` (line 25) |
| Ranking.Insert | dashboard.py:118 | inserting into a ranked list gives a ranked list with exactly the old entries plus the new one, keys kept distinct |
| Ranking.InsertPermutes | dashboard.py:118 | insertion adds exactly one occurrence of the entry |
| Ranking.Rank | dashboard.py:118 | the sort is in leaderboard order (larger total first, equal totals by ascending key), of the same length and holding the same entries |
| Ranking.RankPermutes | dashboard.py:147 | the sort is a permutation of the groups |
| Ranking.TopProperties | dashboard.py:118-119 | the first `n` of the ranking: as many entries as the smaller of `n` and the number of groups, each a group, totals non-increasing, equal totals by ascending key, and a group left out only when the list is full and never ahead of its last entry |
| Ranking.Top | dashboard.py:119 | `.head(n)` of the ranking; its contract is `Ranking.TopProperties` |
| Ranking.ArgMax | dashboard.py:27 | `idxmax`: an index whose total is the largest, with every earlier total strictly smaller (the first maximum) |
| Calendar.FromDayNumber | dashboard.py:140 | a day number converts to a valid Gregorian date that converts back to the same day number |
| Calendar.FromToDayNumber | dashboard.py:140 | every valid date survives the conversion to a day number and back |
| Calendar.ToDayNumber | dashboard.py:140 | day number of a date; `Calendar.FromToDayNumber` and `Calendar.FromDayNumber` prove it inverse to `FromDayNumber` on valid dates |
| Calendar.DateOf | dashboard.py:111 | the calendar date of a timestamp: a valid date whose day contains the timestamp |
| Calendar.Normalize | dashboard.py:111 | `normalize()`: the midnight at or before the instant, less than a day before it, on the same date |
| Calendar.MonthStart | dashboard.py:140 | `Timestamp(year=now.year, month=now.month, day=1)`: a midnight no later than the instant, dated day 1 of the instant's year and month |
| Calendar.MonthToDateSameMonth | dashboard.py:142 | every instant from the month start up to `now` lies in `now`'s year and month |
| Dashboard.Midnight | dashboard.py:21 | `pd.to_datetime(date)`: a midnight whose day number is the date's and whose calendar date is that date |
| Dashboard.FilterByDate | dashboard.py:21 | a row is kept exactly when its day is at or after the start day and it is before the end day or stamped at the end day's midnight |
| Dashboard.AverageMargin | dashboard.py:26 | `mean()`: none exactly for no rows; otherwise the value times the row count is the total profit margin |
| Dashboard.ArgMaxIsTopProduct | dashboard.py:27 | the first maximum of a key-ascending list of true product revenues is a product of the rows with the largest revenue and the lowest id among equal revenues |
| Dashboard.ProductRevenue | dashboard.py:27 | `groupby("product_id")["revenue"].sum()` at one product, i.e. `GroupTotal` by product and revenue; `Dashboard.TopProduct` states its maximum |
| Dashboard.TopProduct | dashboard.py:27 | none exactly for no rows; otherwise a product id that occurs in the rows, whose summed revenue is at least every product's, and the lowest such id |
| Dashboard.ComputeKpis | dashboard.py:24-27 | fails exactly for no rows; otherwise the totals are the column sums of revenue and profit margin, the average is `mean()` and the top product is `idxmax` |
| Dashboard.SingleRowKpis | dashboard.py:24-27 | the KPIs of one row are its revenue, its margin (total and average) and its product |
| Dashboard.TwoDaysFilter | dashboard.py:21 | a range covering 2024-01-01 to 2024-01-02 keeps a sale stamped at midnight of the end day |
| Dashboard.TwoDaysKpis | dashboard.py:24-27 | two sales (revenue 100 and 50, margin 10 and 5, products 1 and 2) give 150, 15, 7.5 and product 1 |
| Dashboard.TrailingWeek | dashboard.py:111-112 | the window ends at the midnight at or before the clock reading, less than a day before it, and starts seven days earlier |
| Dashboard.MonthToDate | dashboard.py:139-140 | the window ends at the clock reading and starts at a midnight no later than it, dated day 1 of its month |
| Dashboard.Shortlist | dashboard.py:115-121 | group-sum, sort and `.head(5)` of the rows of a window; its contract is `Dashboard.ShortlistRanked` and `Dashboard.ShortlistGroups` |
| Dashboard.Leaderboard | dashboard.py:114-121 | the window selection of dashboard.py:114 and 142, then `Shortlist`; its contract is `Sales.Between` with `Dashboard.ShortlistRanked` and `Dashboard.ShortlistGroups` |
| Dashboard.TopProductsLastWeek | dashboard.py:111-121 | the weekly board: products by quantity over `TrailingWeek`; its contract is `Dashboard.TrailingWeek`, `Dashboard.TrailingWeekRows`, `Dashboard.ShortlistRanked` and `Dashboard.ShortlistGroups` |
| Dashboard.TopCustomersThisMonth | dashboard.py:139-150 | the monthly board: customers by revenue over `MonthToDate`; its contract is `Dashboard.MonthToDate`, `Dashboard.MonthToDateRowsInMonth`, `Dashboard.ShortlistRanked` and `Dashboard.ShortlistGroups` |
| Dashboard.TrailingWeekRows | dashboard.py:111-114 | every row of the weekly board is a filtered row stamped between `today − 7 days` and `today`, `today` normalised |
| Dashboard.MonthToDateRowsInMonth | dashboard.py:139-142 | every row of the monthly board is a filtered row no later than `now`, in `now`'s year and month |
| Dashboard.WindowOfFiltered | dashboard.py:114 | windowing the filtered rows is one selection of the whole table by the tighter bounds, and keeps a subset of the filtered rows |
| Dashboard.TopOfGroups | dashboard.py:115-121 | the leading entries of a grouped sum carry keys of the rows with their true totals, and a key left out ranks no higher than the last entry of a full list |
| Dashboard.ShortlistRanked | dashboard.py:115-121 | a leaderboard has `min(5, distinct keys in the window)` entries, totals non-increasing, equal totals by ascending key |
| Dashboard.ShortlistGroups | dashboard.py:144-150 | every leaderboard entry is a key of the window with its true group sum, and a key left out means the board is full and its fifth entry's total is no smaller (and on a tie, a smaller key) |
| Dashboard.TieScenario | dashboard.py:115-121 | two products with quantity 3 each are listed lower id first |
| Dashboard.BuildReport | dashboard.py:21-150 | the page fails exactly when the date range is empty; otherwise the pie slices add up to the revenue KPI, the profit bars to the profit KPI, and each leaderboard has at most five entries |

## Left out

- Data loading and caching (`load_data`, `@st.cache_data`, `read_csv`, dashboard.py:10-15): file I/O and a memoising decorator. The model takes the rows as a parameter.
- The stylesheet read (dashboard.py:7): file I/O.
- The sidebar widgets and their defaults (dashboard.py:18-20): UI. The chosen dates are parameters given as day numbers.
- The KPI cards, titles, columns and containers (dashboard.py:29-72, 102-109, 135-137): layout.
- All Plotly figures (dashboard.py:77-81, 86-91, 95-100, 123-133, 152-162): a presentation layer outside this model. The line chart's data (line 86) is the filtered rows unchanged, so the date filter's contract covers it.
- The number formats `:,.2f` and `:.2f` (dashboard.py:39, 47, 55): text rendering.
- Floating-point sums and NaN: the model uses exact reals. NaN values inside the table are not modelled.
- The wall clock (`pd.Timestamp.today()`, dashboard.py:111, 139): it becomes parameters.
- Nanosecond resolution: pandas timestamps count nanoseconds; the model counts seconds, which the day arithmetic does not depend on.
- Time zones: stamps are naive, as pandas parses the CSV.
- Key and column types: product and customer ids are integers; other pandas dtypes are not modelled.
- `reset_index()` (dashboard.py:76, 95, 120, 149): it only turns a series into a two-column frame, which a list of `Group` entries already is.
- Idempotence of the aggregates: every member is a pure function, so two calls on the same input are equal by construction. No lemma states it.
- Ranking.Rank: pandas' unspecified order among equal sums is replaced by the ascending-key tie-break described above.
