# Order-history reporting backend: aggregation model

The service fetches a list of order-history records from an upstream API and
answers a handful of routes. Each route either returns JSON statistics or a
bar chart (base64 PNG) of one aggregated table. This project models the
aggregation layer of `app.py` and proves properties of it:

- flattening the nested records into one row per record (`Records`);
- the overall statistics: earnings and distinct orders (`Summary`);
- group-by-sum over names, months and (_id, name) pairs, kept in ascending key order as pandas does (`Grouping`);
- `sort_values(inplace=True)` as an in-place insertion sort on an array (`Sorting`);
- the top-10 table, which keeps the first ten names and only then sorts by quantity (`Products`);
- the `str.split("-")` date fields, `astype(int)`, the month and year filters, the month-name table and the twelve positional month labels (`Text`, `Months`);
- the popular-products ranking, its date alignment by index label, and the trailing-window loop (`Popular`);
- the y-axis limit of every chart, and the failure on an empty table (`Charts`);
- each route as a composition of the above, with every way it can fail (`Routes`).

Points where the code's behaviour is easy to misread:

- The y-limit is `max + max % 5`, or `max + 5` on a multiple of 5. It is not a round-up to the next multiple of 5: a maximum of 12 gives 14.
- `head(10)` is applied before sorting by quantity, so the top-10 table holds the first ten names in name order.
- Both popular routes use five rows.
- The first window starts 7 days back from today.
- The monthly chart fails unless exactly twelve months are present.
- The popular-products loop does not run forever when five rows are never admitted. Each step moves a `datetime` back 7 days, which raises once it would pass the earliest representable date. The model takes that date as a parameter `floor`.

Failures are results: `Err(MissingProductColumn)`, `Err(NotAnInteger)`, `Err(UnknownMonth)`, `Err(EmptyChart)`, `Err(LabelCountMismatch)`, or `Err(DateOutOfRange)` where the popular-products cutoff passes `floor`.

## Model

| member | source | states |
|---|---|---|
| Records.Flatten | app.py:58-63 | one flat row per history record in order, each giving back its record; an empty list fails with a missing "product" column |
| Records.FlatNestRoundTrip | app.py:60-63 | flattening a record and nesting it again are inverse |
| Text.Split | app.py:156 | `str.split` keeps empty fields: at least one field, none containing the separator |
| Text.JoinSplit | app.py:156 | joining the split fields with the separator gives back the string |
| Text.SplitJoin | app.py:156 | splitting fields that do not contain the separator gives back the fields |
| Text.Field | app.py:156-158 | field `i` of the split date is present exactly when there are more than `i` fields |
| Text.ParseShow | app.py:159 | `int()` reads back the decimal text of every natural number |
| Text.ParseInt | app.py:159 | `int()` succeeds exactly on an optional sign followed by at least one decimal digit; a leading "-" gives a non-positive value, anything else a non-negative one |
| Text.SplitFirst | app.py:109 | the first field is a prefix of the string that ends just before the first separator, and the whole string when the separator does not occur |
| Text.LeadingZero | app.py:159 | `int()` ignores a leading zero ("03" is 3) |
| Months.DateField | app.py:156-159 | a date field value exists exactly when the date has that field and it parses as an integer, and it is that integer |
| Months.MonthNum | app.py:157 | `month_num` exists exactly when the date has a second "-" field that parses as an integer, and is that integer |
| Months.YearNum | app.py:158 | `year_num` is the first "-" field as an integer |
| Months.FieldParses | app.py:159 | when the cast succeeds, every date has the field being cast |
| Months.InMonth | app.py:165 | the month filter keeps only records of that month, drawn from the input, and never more rows |
| Months.InYear | app.py:166 | the year filter keeps only records of that year, drawn from the input, and never more rows |
| Grouping.GroupSum | app.py:93-94 | groupby-sum: keys ascending, keys are exactly the item keys, each key's total is the sum of its items' quantities, the totals add up to the total quantity |
| Grouping.GroupRows | app.py:93-94 | every grouped row has a distinct key and holds the sum for that key |
| Grouping.GroupCount | app.py:110-111 | there is one grouped row per distinct key |
| Grouping.Where | app.py:165-166 | a boolean-mask filter keeps each matching row as often as it occurs and drops every other row |
| Grouping.WhereMembers | app.py:122 | a row is kept exactly when it is a row of the input and matches |
| Grouping.WhereKeepsOrder | app.py:122 | the filter keeps any pairwise order of the input |
| Grouping.WhereGrows | app.py:121-122 | a weaker mask keeps at least as many rows |
| Grouping.StrLessOrder | app.py:94 | string order (by code point) is a strict total order, as pandas sorts group keys |
| Grouping.PairLessOrder | app.py:111 | the order of (_id, name) keys is a strict total order |
| Sorting.SortBy | app.py:95 | the in-place sort leaves the array ordered by the key and a permutation of its old contents |
| Sorting.Sorted | app.py:95 | the sorted copy is ordered by the key and a permutation of its input |
| Charts.YLimit | app.py:40-42 | the upper limit lies 1 to 5 above the maximum and is a multiple of 5 exactly when the maximum is |
| Charts.YLimitExamples | app.py:41 | 12 gives 14, 10 gives 15, 3 gives 6, 0 gives 5 |
| Charts.MaxTotal | app.py:40 | the maximum is at least every total and is one of them |
| Charts.BarChart | app.py:30-43 | an empty table fails; otherwise the bars are the table, the bottom is 0, and the top is the padded limit of the largest total, so above every total and at most 5 above some total |
| Summary.Earnings | app.py:76-77 | the total earnings are at least the amount of every single row |
| Summary.OrderCount | app.py:78 | the number of order groups is at most the number of rows, and at least one when there is a row |
| Summary.EarningsPermutation | app.py:76-77 | total earnings do not depend on row order |
| Summary.OrderCountPermutation | app.py:78 | the order count does not depend on row order |
| Summary.OrderCountBounds | app.py:78 | there are at most as many orders as rows, and at least one when there is a row |
| Summary.FlattenOrderIds | app.py:58-63 | the flat rows carry exactly the order ids of the history |
| Summary.HistoryDetails | app.py:73-82 | fails exactly on an empty history; otherwise total earnings are the sum of quantity times price, and total orders the number of distinct order ids of the history, between 1 and the number of records |
| Summary.DetailsExample | app.py:76-78 | three records of prices 10, 8, 10 and quantities 2, 3, 1 earn 54 over three orders |
| Products.NameGroups | app.py:93-94 | the per-name table is in ascending name order |
| Products.NameGroupsSums | app.py:93-94 | one row per distinct name, each with the sum of that name's quantities, all together the total quantity |
| Products.Head | app.py:94 | `head(n)` is a prefix of the table: its first `n` rows, or all of them when there are fewer |
| Products.HeadKeepsFirstNames | app.py:93-95 | rows drawn from `head(n)` of the name-ordered table carry only names before every dropped name |
| Products.TopTen | app.py:93-95 | at most ten rows, a permutation of the first ten name groups, sorted by quantity largest first, exact sums, and every kept name precedes every dropped name |
| Months.InMonthExact | app.py:165 | the month filter keeps exactly the records of that month, with their multiplicities |
| Months.InMonthOfYearExact | app.py:165-166 | month then year filtering keeps exactly the records of that month of that year |
| Months.DateSplitExample | app.py:156 | "2024-03-05" splits into "2024", "03", "05" |
| Months.DateParseExample | app.py:159 | "03" and "2024" cast to 3 and 2024 |
| Months.MonthName | app.py:14-27 | the month-name table has an entry exactly for 1 to 12 |
| Months.MonthLabelsAbbreviate | app.py:211-212 | the twelve positional labels of `MonthLabels` each abbreviate the month name of their position |
| Months.MonthGroups | app.py:208-209 | the per-month table is in ascending month order |
| Months.MonthTotalsSum | app.py:208-209 | the monthly totals add up to the total quantity |
| Months.SortedAscendingUnique | app.py:210 | sorting the already ascending monthly table by month changes nothing |
| Months.MonthLabelsAligned | app.py:210-212 | with twelve grouped months all in 1 to 12, row `i` is month `i + 1`, so each label names its row's month |
| Months.MonthlySell | app.py:204-212 | fails if a month field is not an integer or there are not exactly twelve months; otherwise row `i` is label `i` with the total of the `i`-th month |
| Months.GivenMonth | app.py:185-190 | fails if a month field is not an integer; otherwise a permutation of the name groups of that month, largest first |
| Months.ThisMonth | app.py:156-169 | fails if a month or year field is not an integer; otherwise the top-10 table of the records of that month and year |
| Popular.ProductGroups | app.py:110-111 | the (_id, name) table is in ascending key order and has at most one row per record |
| Popular.ProductGroupsCount | app.py:110-111 | one row per distinct (_id, name) pair |
| Popular.Labelled | app.py:110-111 | `reset_index` labels the grouped rows 0, 1, 2, ... |
| Popular.DatePart | app.py:109 | the text before the first "T": a prefix of the date without "T" that is followed by a "T", or the whole date when it has none |
| Popular.Days | app.py:113 | one day number per record, in order: the day of that record's calendar date |
| Popular.AttachDates | app.py:113 | the date column is attached row by row, one date per row |
| Popular.AttachDatesAt | app.py:113 | row `j` of the dated table is row `j` with the date found at its index label |
| Popular.DatedGroupsAt | app.py:110-113 | grouped row `i` is dated by input record `i`, whichever product that record is |
| Popular.AttachDatesPermutation | app.py:112-113 | attaching dates by index label gives the same rows whether done before or after the sort |
| Popular.AlignmentExample | app.py:108-113 | a record of product b followed by one of product a dates product a's grouped row with b's date |
| Popular.Rank | app.py:110-113 | the ranked rows are a permutation of the label-dated groups, sorted by quantity largest first |
| Popular.Recent | app.py:122 | a row is kept exactly when it is ranked and dated on or after the cutoff |
| Popular.WeeksBack | app.py:117-121 | the cutoff never lies after today, and each step back moves it at least 7 days before today |
| Popular.CandidatesGrow | app.py:120-123 | moving the cutoff back never loses a row |
| Popular.MinDay | app.py:122 | the earliest ranked date is at most every date and is one of them |
| Popular.AllRecent | app.py:122 | a cutoff at or before the earliest date admits every row |
| Popular.Window5 | app.py:116-125 | stops at the first week count whose cutoff admits five rows and returns the first five admitted; ends `OutOfRange` when a step would move the cutoff before `floor` first |
| Popular.StopOutOfRange | app.py:120-121 | a step that passes `floor` after steps that all admitted fewer than five rows ends the search `OutOfRange` |
| Popular.NeverFive | app.py:120-123 | with fewer than five ranked rows the search always ends `OutOfRange` |
| Popular.FoundInRange | app.py:120-123 | with five ranked rows, and today and every date a week or more after `floor`, the search finds its window |
| Popular.WindowRows | app.py:122-125 | the window holds five ranked rows, all on or after the cutoff, in ranked order |
| Popular.WindowUnique | app.py:117-125 | the outcome is determined by the ranking, today's date and `floor` |
| Popular.PopularProducts | app.py:107-125 | ranking then the window search, with both contracts |
| Routes.TopTenMostSellingGraph | app.py:90-97 | fails exactly on an empty history; otherwise 1 to 10 bars, the first ten name groups, largest first, on a y-axis from 0 to the padded limit of the largest bar |
| Routes.RankedCount | app.py:110-111 | there is one ranked row per distinct (_id, name) pair of the history |
| Routes.RankedDays | app.py:113 | every ranked row is dated by some record of the history, so a lower bound on the record dates bounds the ranked dates |
| Routes.PopularRows | app.py:107-125 | the five rows of the window the search finds for a ranking of the history, largest first; `DateOutOfRange` when the search passes `floor`, always with fewer than five distinct (_id, name) pairs and never with five or more when the dates lie a week or more after `floor` |
| Routes.PopularDetails | app.py:142-145 | the `/popular` rows, with the same outcome |
| Routes.Bars | app.py:131-132 | one bar per popular row, keeping the largest-first order |
| Routes.PopularGraph | app.py:128-132 | the bars of the window's five rows, largest first, under the same conditions, on a y-axis from 0 to the padded limit of the largest bar |
| Routes.TopThisMonthGraph | app.py:153-171 | fails on an empty history, a non-integer date field, an unknown month or no record of that month and year, in that order; otherwise the top-10 table of that month, on a y-axis from 0 to the padded limit of the largest bar |
| Routes.GivenMonthGraph | app.py:181-192 | fails on a non-integer parameter, an empty history, a non-integer month field, a month outside 1 to 12 or no record of that month, in that order; otherwise the month's name groups, largest first, on a y-axis from 0 to the padded limit of the largest bar |
| Routes.MonthlySellGraph | app.py:202-214 | fails on an empty history, a non-integer month field or a month count other than twelve; otherwise twelve labelled bars, on a y-axis from 0 to the padded limit of the largest bar |

## Left out

- The Flask app, the `/` greeting route and the JSON response wrapping: the handlers take the history list as a parameter and return a result.
- The upstream HTTP call, its endpoints and the forwarded auth token: a failed or non-JSON response is not modelled.
- Chart drawing, tick labels, titles, PNG encoding and base64: only the y-axis limits and the failure on an empty table are modelled.
- The clock: today's date (UTC plus 5:45) is a parameter, as a day number for the popular window and as year and month for the this-month chart.
- `pd.to_datetime`: the parameter `dayOf` stands for it, and a date it cannot parse is not modelled.
- Text.ParseInt: `int()` also accepts surrounding whitespace, `_` digit separators and non-ASCII Unicode decimal digits; the model accepts only an optional sign followed by ASCII digits.
- Text.ParseInt: the `astype` cast to 64-bit integers raises above 2^63 - 1 and below -2^63; the model's integers are unbounded.
- Floating-point totals: prices and quantities are natural numbers.
- Summary.Earnings: pandas multiplies and sums quantity and price in 64-bit integers, which wrap silently past 2^63 - 1; the model's are unbounded, so its bound "no row's amount exceeds the total" holds only while the program's sum does not wrap.
- Grouping.GroupSum: the groupby sums are 64-bit integers in pandas and wrap past 2^63 - 1; the model's are unbounded. This covers the quantity sums behind Products.NameGroupsSums, Months.MonthTotalsSum, Products.TopTen and the y-axis limit.
- The commented-out monthly-selling route at the end of the file, which is dead code.
- Popular.Window5: `floor` is a parameter for the earliest cutoff the date arithmetic accepts. That is `datetime.min` for the 7-day subtraction. Some pandas versions already refuse the comparison with the date column below the nanosecond Timestamp range. Which of the two applies is not modelled.
- Routes.PopularDetails: the JSON text of the rows is not modelled; the result is the rows.
