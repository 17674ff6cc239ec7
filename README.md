# USA sales dashboard — a Dafny model of its data logic

The dashboard is a single script, `main.py`. On each interaction it does the following:

- It loads an uploaded CSV or Excel file of orders.
- It maps two-letter state codes to the French display names it uses (`State Complet`).
- It parses the order dates and keeps an allowlist of columns.
- It filters the rows by an inclusive date range and five multiselects: region, state, county, city and status.
- It draws indicators and charts from the filtered rows: the sales total, distinct customers and distinct orders; sales per category, region and gender; the ten best clients; monthly sales; and a map of per-state sales.

This project models that data logic and proves what each step promises.

- `wrappers.dfy`: `Option` and `Result`.
- `seqs.dfy` (module `Seqs`): boolean masks (`Where`), `unique()`, subsequences and a stable sort (`SortBy`) against a total preorder.
- `orders.dfy` (module `Orders`): dates, months and order rows, both as read (`RawOrder`) and as loaded (`Order`).
- `loader.dfy` (module `Loader`): `load_data`.
  - The choice of reader, and the error paths for no file, a bad extension, a missing file and a failed read.
  - The 50-entry state table.
  - Date coercion, the column allowlist and the `int8` age cast.
- `filters.dfy` (module `Filters`): the filter chain, step by step, and the option lists of the multiselects.
- `aggregates.dfy` (module `Aggregates`):
  - The indicators.
  - The group-by-sum tables behind the category, region, gender and monthly charts.
  - The ten best clients.
- `sales_map.dfy` (module `SalesMap`): `prepare_map_data` and the marker sizes.
- `dashboard.dfy` (module `Dashboard`): one pass of the script, and how its figures agree with each other.

Missing values are `None`. The following pandas behaviour is modelled explicitly:

- `isin` matches a missing value against a selected missing value.
- `unique()` keeps missing values.
- `groupby` drops rows whose key is missing.
- A comparison with a missing date (`NaT`) is false.

The file readers, the date parser and the geocoder are foreign code, so they are parameters: `read`, `parseDate` and `geocode`.

A state code outside the table gives a missing `State Complet`. `unique()` keeps that missing value, so the state option list can offer it (line 112).

## Model

| member | source | states |
|---|---|---|
| Loader.StateTableExamples | main.py:37-52 | "CA", "NY" and "TX" map to their display names; a code outside the table ("ZZ") maps to a missing value |
| Loader.MapStateCodes | main.py:55-56 | the new `State Complet` column holds, row by row, the state table's name for that row's `State` code |
| Loader.StateCompletColumn | main.py:55-56 | when `State` is present, each loaded row's `State Complet` is the table's name for its code, and the columns the loader leaves alone keep their values |
| Loader.CoerceDates | main.py:60-61 | the new `order_date` column holds, row by row, the parser's result: a parsed date, or a missing value for unparseable text |
| Loader.OrderDateColumn | main.py:60-61 | when `order_date` is present, each loaded row's date is what the parser made of its text |
| Loader.SelectColumns | main.py:65-66 | the loop over the allowlist yields exactly the allowlisted columns that are present, in allowlist order |
| Loader.KeptColumnsMembership | main.py:65-66 | a column is kept if and only if it is allowlisted and present |
| Loader.LoadedColumns | main.py:54-67 | the loaded columns are exactly the allowlisted ones that were present, counting `State Complet` as present when `State` was; they come in allowlist order, each once |
| Loader.ToInt8 | main.py:72-73 | the `int8` cast gives a value in [-128, 127], congruent to the input modulo 256, and equal to the input when the input already fits |
| Loader.NarrowAges | main.py:72-73 | the new `age` column holds each row's age cast to `int8` |
| Loader.NormaliseTable | main.py:54-75 | the step-by-step normalisation of a read table yields the normalised table, and shows one warning for each of `State` and `order_date` that is missing |
| Loader.LoadData | main.py:15-77 | no upload gives no table and no message; an extension other than `.csv` or `.xlsx`, a missing file or a reader failure each give the matching error message and no table; a table that was read gives its normalised table and warnings |
| Seqs.Unique | main.py:111-114 | an option list holds the column's values, each exactly once |
| Filters.FilterChain | main.py:107-129 | applying the date filter, then the region, state, county, city and status filters (each only when its selection is non-empty) yields exactly the rows matching the whole selection |
| Filters.ApplyStep | main.py:116-129 | one step masks the rows with its test when its selection is non-empty and leaves them alone otherwise; either way, the result is the rows that pass the steps so far |
| Filters.FilteredRows | main.py:107-129 | the filtered rows keep the order of the loaded table; a row is kept if and only if it lies in the inclusive date range and in every non-empty selection |
| Filters.EmptySelectionsKeepDateRange | main.py:107-129 | with every multiselect empty, only the date range filters |
| Filters.UndatedRowsDropped | main.py:107 | a row whose date is missing never survives the date filter |
| Filters.NarrowingNeverAddsRows | main.py:107-129 | a narrower date range or a smaller non-empty selection keeps a subsequence of the rows a looser one keeps |
| Filters.StateOptionsSpec | main.py:112 | the state options are the `State Complet` values of the rows in the selected regions, missing value included, each once; there are none while no region is selected |
| Filters.CityOptionsSpec | main.py:114 | the city options are the cities of the rows whose `State Complet` is selected, each once; there are none while no state is selected |
| Aggregates.IdSet | main.py:137-138 | `nunique`: a value is counted if and only if some row has it; there are no more distinct values than rows, and none without rows |
| Aggregates.ComputeKpis | main.py:136-138 | each distinct count is between 1 and the number of rows when there are rows; all three indicators are zero when there are none |
| Aggregates.KpiSalesMatchCategories | main.py:136-149 | the sales indicator equals the total of the category bars |
| Aggregates.GroupSums | main.py:148 | `groupby(...)['total'].sum()` gives one entry per key that occurs, with no key twice; each key's sum is the sum of `total` over its rows; the entries add up to the sum over all keyed rows |
| Aggregates.EntrySum | main.py:265 | looking a key up in the grouped table finds that key's own entry |
| Seqs.SortBy | main.py:149 | `sort_values` returns a permutation of the table, ordered by the comparison |
| Aggregates.SortGroups | main.py:149 | sorting keeps the same entries, keys and total, and keeps keys distinct |
| Aggregates.SalesBySpec | main.py:148-149 | a sorted per-key chart has distinct keys, exactly the keys that occur and the correct sum per key; its sums never increase along the series, and they add up to the keyed total |
| Aggregates.ChartTotals | main.py:148-199 | the category, region and gender charts each add up to the sum of `total` over the filtered rows |
| Aggregates.Leaders | main.py:181 | `nlargest(n)` on a ranking yields min(n, length of the ranking) entries |
| Aggregates.LeadersCutoff | main.py:181 | every leader comes from the ranking; an entry left out means all n places were filled, by entries whose sums are no smaller than its own |
| Aggregates.TopClientsSpec | main.py:181 | the top-clients table has min(10, number of clients) entries, no client twice, in non-increasing order of sales |
| Aggregates.TopClientsFromGrouping | main.py:181 | every listed client is an entry of the grouping by `full_name`, so a name no row carries is never listed |
| Aggregates.RankedLeaders | main.py:181 | the leading entries of any table ranked by sales are entries of that table |
| Aggregates.TopClientsSums | main.py:181 | each listed client's figure is the sum of `total` over that client's rows |
| Aggregates.TopClientsCutoff | main.py:181 | a client who is left out means all ten places are taken, and the tenth has sales at least as high as that client's |
| Aggregates.MonthlySalesOrder | main.py:218-221 | the months of the monthly series are strictly chronological, and a month appears if and only if some dated row falls in it |
| Aggregates.MonthlySalesSums | main.py:218-221 | each month's figure is the sum of `total` over that month's rows; when every row is dated, the series adds up to the sum of `total` over all rows |
| SalesMap.MapPoints | main.py:257-266 | one marker for each grouped state the geocoder places, at the geocoder's coordinates and with that state's sum; no other markers; the markers keep the order of the grouping |
| SalesMap.PrepareMapData | main.py:251-268 | the loop builds exactly the map series of the filtered rows |
| SalesMap.MapDataSpec | main.py:251-268 | a state is on the map if and only if some row carries its name and the geocoder places "<state>, United States"; it appears once, with the sum of `total` over that state's rows |
| SalesMap.MarkerSize | main.py:283 | a marker's size lies in [8, 20]; it is a thousandth of the sales in between, 8 up to 8000 in sales, and 20 from 20000 |
| SalesMap.MarkerSizeMonotone | main.py:283 | more sales never give a smaller marker |
| SalesMap.MarkerSizes | main.py:283 | one size per map entry, in order, each that entry's clamped size |
| Dashboard.Render | main.py:96-283 | the option lists come from the whole loaded table; every indicator, chart and the map come from the filter chain's rows |
| Dashboard.MonthlyMatchesKpi | main.py:136-221 | the monthly series and the category chart both add up to the sales indicator |
| Dashboard.NothingSelected | main.py:107-283 | when no row survives the filters, the indicators are zero, and the charts, the top-clients table and the map are empty |

## Left out

- The page itself: the title, the CSS and the layout (lines 11-12 and 86-93), the plotly figure settings, and the histogram of ages with its 20 bins (lines 189-194), which is drawing only.
- The inner workings of the file readers and the date parser: they are the parameters `read` and `parseDate`.
- Loader.CoerceDates: each `order_date` cell is parsed on its own by `parseDate`. `pd.to_datetime` without a format (line 61) infers one format from the first non-missing value in pandas 2.x, and turns a cell written in another format into `NaT`. So in pandas a cell's result depends on the rest of the column, which the model does not capture. This applies equally to `Loader.OrderDateColumn` and `Loader.NormaliseTable`.
- The geocoder: the Nominatim service, its timeout and the `st.cache_data` memoisation (lines 238-249) are the parameter `geocode`. A timeout or an unknown place is its `None`. Memoisation does not change any result, because the parameter is a function.
- Geocoder errors other than a timeout: only `GeocoderTimedOut` is caught (line 247). Any other error raised by the service escapes `prepare_map_data` (line 271) and stops the page. `geocode` is total here, so the model has no such failure.
- The `float32` cast of `total` (lines 70-71): sales are real numbers, so rounding to single precision is not modelled.
- Time of day: dates are (year, month, day). The end picker gives midnight of the end day (line 104), so pandas drops an order placed later on that day. The model keeps it.
- The initial date-picker values and their bounds (lines 96-104): the range is part of the `Selection`. The two pickers (lines 101 and 104) are separate widgets, each bounded only by the earliest and latest order dates, so nothing orders the start before the end. The model does not order them either; a start after the end keeps no row.
- The multiselects' guarantee that a selection is drawn from its option list: `Selection` holds arbitrary sets, which is more general.
- The month labels (`strftime('%B %Y')`, line 224): the series keeps (year, month) keys.
- The donut's percentages (line 176): the model keeps the per-region sums they are computed from, which are the same as long as no `total` is negative (see `Aggregates.ChartTotals` below).
- Aggregates.ChartTotals: its region clause describes the donut drawn at line 171 only while every `total` is non-negative. `px.pie` receives the raw rows and never draws a negative value, and nothing in the loader forbids a negative `total`. With one, the drawn donut need not equal `SalesByRegion`, and it need not add up to the sales indicator.
- Aggregates.GroupSums: entries come in order of first appearance. pandas sorts group keys instead, so the category and gender series can differ from pandas between entries with equal sums. The region donut (line 171) has no `groupby`: plotly's pie sums each label in order of first appearance and then orders the slices by decreasing value, as `SalesByRegion` does, so it does not differ in this way. The monthly series is sorted chronologically explicitly, so it is unaffected. The map markers (lines 257-266) follow `state_sales`, which pandas sorts by state name (line 254). `SalesMap.MapPoints` follows the order in which states first appear in the rows, so the marker order differs from pandas; the set of markers and their figures do not.
- Aggregates.SalesBySpec: ties in `sort_values` are broken stably here. pandas' default quicksort leaves the order of equal sums unspecified.
- Aggregates.TopClientsSpec: among clients tied at the tenth place, pandas keeps the alphabetically first names: `nlargest(10)` keeps the first occurrences, over an index that `groupby` sorts by name (line 181). The model keeps the names that first appear earliest in the rows, so the choice among equal sums can differ.
- Missing values in text columns other than `State Complet` (region, county, city, status, category, gender, client name) are not modelled. The group-by key functions of those charts therefore never drop a row.
- Missing or non-numeric `total`, `cust_id` and `order_id`: pandas' `sum()` skips a missing `total` (lines 136, 148, 181, 198, 221 and 254), and `nunique()` leaves a missing id out of the distinct counts (lines 137-138). A non-numeric `total` makes the `float32` cast at line 71 raise, outside the `try` of lines 20-34, which stops the page. Every row has a real `total` and integer ids here, so `ComputeKpis` counts an id for every row.
- Non-integer ages: at line 73 a missing (NaN) or non-numeric age makes the `int8` cast raise, and a fractional age is truncated toward zero before the wrap-around. Ages are integers here.
- Missing columns after loading: the dashboard part reads `order_date`, `Region` and the other columns unconditionally and would fail with a `KeyError`. The model gives every row a value for every field.
- `load_data`'s `st.error` and `st.warning` messages (lines 27-34, 58 and 63) are the `LoadError` and `Warning` values, not text. `NoUpload` stands for the silent `None` of line 77, which shows no error.
- The no-file warning (line 84): without a table the model produces nothing further, and the message itself is not modelled.
- The map's error message (line 307), shown whenever `map_data` is empty: the model gives the empty series but does not model the message.
