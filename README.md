# Sales analytics over product transactions

A Dafny model of the analytics core of a small Express + SQLite backend.
The backend loads product transactions and answers four monthly queries:
revenue with sold and unsold counts, a price-band bar chart, a category pie
chart, and a combined report holding all three.

The queries are SQL over the `products` table. The model states them as
functions over the table's rows (`seq<Record>`).

- `wrappers.dfy`, `errors.dfy`: `Option`/`Result`, and the two 400 failures the model produces (an invalid month, a failed combined report).
- `months.dfy` (`Months`): the month gate. It has the twelve accepted names and `validateMonth`, which accepts only a single query value equal to one of them. It also derives the month number `(indexOf + 1).toString().padStart(2, "0")` from `indexOf`, `toString` and `padStart`, each modelled on its own.
- `products.dfy` (`Products`): the record, well-formed sale dates, and the shared `WHERE strftime('%m', dateOfSale) = ?` filter, optionally narrowed by `sold = 1` or `sold = 0`.
- `sequences.dfy`, `group_by.dfy` (`Sequences`, `GroupBy`): `GROUP BY … COUNT(*)` written once for any column, with the sum of its count column that both charts use.
- `stats.dfy` (`Stats`): `SUM(price)` and the two counts. An empty month's NULL sum becomes 0 through `|| 0`.
- `bar_chart.dfy` (`BarChart`): the ten-way `CASE` on `price`, grouped by label.
- `pie_chart.dfy` (`PieChart`): rows grouped by exact category string.
- `combined_data.dfy` (`CombinedData`): the fail-fast merge of the three sub-responses, plus a worked example (two March sales).

Each endpoint is modelled as a function from the table and the `month`
query parameter to a `Result`. The month gate runs first. When it rejects,
the answer is `InvalidMonth` whatever the table holds.

Two behaviours of the code a reader may not expect:

- The histogram of the code is not limited to the ten labels. A negative price matches no `WHEN`, so SQLite groups it under a NULL `priceRange`. The model keeps that NULL bar.
- The combined report does not call the three computations in-process. It requests the three endpoints over HTTP and merges the answers. The model calls the three handler functions with the same `month` and merges them.

## Model

| member | source | states |
|---|---|---|
| `Months.ValidMonthsDistinct` | index.js:102-115 | the month table holds twelve different names |
| `Months.ValidateMonth` | index.js:117-129 | a parameter passes exactly when it is a single value equal to one of the twelve names. A missing, empty, misspelled ("Marc") or repeated value fails with `InvalidMonth` |
| `Months.IndexOf` | index.js:137 | `indexOf` returns the first position holding the value, or -1 when the value is absent |
| `Months.Decimal` | index.js:137-138 | `toString` gives decimal digits with no leading zero whose value is the number (a round trip); one digit below 10, two below 100 |
| `Months.PadStart` | index.js:139 | `padStart` returns the string unchanged as a suffix, preceded by fill characters up to the width |
| `Months.MonthNumber` | index.js:137-139 | an accepted name's month number is a two-digit key whose value is the name's 1-based position |
| `Months.MonthNumberIsPosition` | index.js:102-115 | the i-th name of the table gets the key of value i + 1 |
| `Months.MonthNumberInjective` | index.js:137-139 | different accepted names get different keys |
| `Months.MonthKeysAreExactlyTheTwelve` | index.js:137-139 | a string is the key of some accepted name exactly when it is two digits denoting 1 to 12, i.e. "01".."12" |
| `Products.MonthOf` | index.js:144 | `strftime('%m', …)` of a well-formed sale date is a month key |
| `Products.QueryByMonth` | index.js:141-155 | the filter keeps a row exactly when its month digits equal the key and, if asked, its `sold` flag matches |
| `Products.QueryByMonthKeepsRows` | index.js:141-155 | each selected row is kept as many times as the table holds it; no other row is kept |
| `Products.RecordInExactlyOneMonth` | index.js:137-144 | every well-formed sale date lies in the month of exactly one accepted name |
| `Products.SelectedIgnoresYear` | index.js:144 | two rows that differ only in the year are both selected or both left out |
| `Products.FilterIgnoresYear` | index.js:144-154 | moving any sales to other years selects the same transactions, so years sharing a month are pooled |
| `GroupBy.GroupCount` | index.js:201-204 | each occurring value has exactly one row, no other row exists, each count is the number of occurrences (never 0), and the counts sum to the rows grouped |
| `Stats.ComputeStatistics` | index.js:141-169 | the sale amount is the sum of the month's prices, which is also the sold revenue plus the unsold revenue. `totalSoldItems` is the number of the month's rows with `sold = 1` and `totalNotSoldItems` the number with `sold = 0`, each counted row by row; the two add up to the month's rows. All three are 0 exactly when the month has no rows |
| `Stats.CountWhereIsQuery` | index.js:146-155 | `COUNT(*)` of the month query narrowed by `sold = 1` (or `sold = 0`) is the number of the table's rows with that month key and that `sold` flag |
| `Stats.SoldPartition` | index.js:141-155 | `sold = 1` and `sold = 0` split the month's rows: the counts add up and the revenues add up |
| `Stats.StatisticsFor` | index.js:132-171 | an invalid month gives `InvalidMonth` whatever the table holds. The i-th name gives the statistics of key i + 1 |
| `Stats.StatisticsIgnoreYear` | index.js:141-155 | changing the years of sales leaves all three statistics as they are |
| `Stats.TotalPriceOfPermutation` | index.js:141-145 | the exact sum of prices does not depend on the order of the rows |
| `Stats.StatisticsIgnoreOrder` | index.js:141-169 | the statistics depend on which rows the table holds, not on their order |
| `BarChart.LabelsDistinct` | index.js:190-199 | the ten labels are different strings |
| `BarChart.PriceRange` | index.js:189-200 | a price gets a label exactly when it is >= 0, and the label is one of the ten |
| `BarChart.PriceRangeIsBand` | index.js:189-200 | the i-th label goes exactly to the prices of band i: [0, 100], (100 i, 100 (i + 1)], or (900, ∞) |
| `BarChart.BandsPartition` | index.js:189-200 | some band holds a price exactly when the price is >= 0, and no price is in two bands |
| `BarChart.BandEdges` | index.js:190-199 | 0 and 100 go to "0 - 100", 100.5 to "101 - 200", 900 to "801 - 900", 900.01 to "901-above", and -0.01 gets NULL |
| `BarChart.OccurrencesOfLabel` | index.js:189-204 | the rows labelled with the i-th label are as many as the rows priced in band i |
| `BarChart.BarChartData` | index.js:187-212 | no two bars share a range. Every bar counts at least 1 and is labelled NULL or with one of the ten labels. The counts sum to the month's rows |
| `BarChart.BarChartCountsBand` | index.js:187-212 | band i has a bar exactly when some row of the month is priced in it, and that bar counts those rows |
| `BarChart.LabelledBarsAtMostTen` | index.js:187-212 | bars with distinct non-NULL labels are at most ten |
| `BarChart.BarChartOfNonNegativePrices` | index.js:187-212 | with no negative price in the month, every bar is labelled and there are at most ten bars |
| `BarChart.BarChartFor` | index.js:178-218 | an invalid month gives `InvalidMonth` whatever the table holds. The i-th name gives the chart of key i + 1 |
| `BarChart.BarChartIgnoresYear` | index.js:203 | changing the years of sales leaves the bar chart as it is |
| `PieChart.OccurrencesOfCategory` | index.js:230-234 | grouping counts, for each category string, exactly the rows with that category |
| `PieChart.PieChartData` | index.js:230-242 | there is one slice per category occurring in the month, compared as exact strings. Each slice counts that category's rows (at least 1), and the counts sum to the month's rows |
| `PieChart.PieChartFor` | index.js:221-248 | an invalid month gives `InvalidMonth` whatever the table holds. The i-th name gives the chart of key i + 1 |
| `PieChart.PieChartIgnoresYear` | index.js:233 | changing the years of sales leaves the pie chart as it is |
| `CombinedData.Merge` | index.js:265-285 | the merge succeeds exactly when all three sub-responses did, and it holds them unchanged. Otherwise it fails with `CombinedDataFailed` |
| `CombinedData.CombinedDataFor` | index.js:251-291 | the report exists exactly when the month is valid. Its `statistics`, `barChart` and `pieChart` equal the three handlers' answers. Otherwise the failure is `InvalidMonth` |
| `CombinedData.CombinedIgnoresYear` | index.js:251-291 | changing the years of sales leaves the combined report as it is |
| `CombinedData.MarchKey` | index.js:102-139 | "March" passes the gate and is keyed "03" |
| `CombinedData.MarchExample` | index.js:141-285 | for the sales (50, "A", sold) and (150, "B", unsold) of March, the report is {200, 1, 1}, bars "0 - 100": 1 and "101 - 200": 1, and slices "A": 1 and "B": 1 |

## Left out

- Express setup, route wiring, JSON encoding, status codes and `app.listen` (index.js:11-12, 38-41) are transport; a handler's `Err` stands for the 400 response.
- The `error` texts sent with the 400 responses (index.js:124, 289) are transport too; `InvalidMonth` and `CombinedDataFailed` name the two responses without their wording.
- Opening SQLite, `CREATE TABLE` and the global handle (index.js:15-48) are library state; the table is the `seq<Record>` parameter. The `id INT PRIMARY KEY` uniqueness is not assumed, because no aggregate reads `id`; `title`, `description` and `image` are dropped for the same reason.
- `insertSeedData` and `/initialize-database` (index.js:51-99) are not modelled: the feed fetch is network I/O, and the inserts are issued without being awaited before `COMMIT`, so what they store depends on promise scheduling.
- The self-HTTP requests under `Promise.all` in `/combined-data` (index.js:261-273) are network and concurrency; the model calls the handlers directly and assumes the JSON round trip returns the values unchanged.
- The `catch` branches for failing storage reads ("Error fetching statistics.", "… bar chart data.", "… pie chart data.", index.js:172-174, 215-217, 245-247) are not modelled: the modelled table cannot fail to be read.
- `SUM(price)` is exact real arithmetic, not IEEE floating point.
- `Products.IsoDate`: only sale dates written exactly `YYYY-MM-DD` that name a real calendar day are modelled, and the model reads their characters 5-6. SQLite also accepts timestamps, and one carrying a zone offset is converted to UTC before `%m` is taken, which can move a sale into the adjacent month; a day past the month's end is normalised into the next month. Neither is modelled.
- `GroupBy.GroupCount`: the order of the grouped rows is not SQLite's (which SQL leaves unspecified without `ORDER BY`); rows come in order of first appearance, and no property stated depends on the order.
- NULL `price`, `category` or `sold` values are not modelled; `sold` is a boolean, so `sold = 1` and `sold = 0` cover every row.
- `Months.ValidateMonth`: a `month` parameter parsed into an object (`month[x]=…`) is not modelled; like an array it is truthy and never included, so it is rejected.
- The `monthNumber` computed in `/combined-data` (index.js:256-258) is never used by the source, so nothing models it.
