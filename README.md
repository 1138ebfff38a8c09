# Wikipedia traffic dashboard: data synthesis

This project models the data-synthesis core of the dashboard's one component,
`Visualisation.js`. The component turns the user's filter selection into a
list of shard URLs, one for each selected traffic type, access type and
domain. The shards are small JSON files. The component merges the hourly
shards of a day into descending per-hour series, and sums the monthly shards
of a month into one series ordered by label.

The model has these modules:

- `Selection` covers `selectedTypes`: the labels of the ticked checkboxes, in
  entry order.
- `JsText` covers the JavaScript text primitives the core relies on:
  - `parseInt`, including its NaN results;
  - `Number#toString` and `padStart`;
  - `substring` with clamping, and `join`;
  - the string `<` that the monthly sort uses.
- `Dates` covers date handling:
  - the update loops that read year, month and day out of the selected
    identifiers;
  - the identifiers the fetches rebuild from those numbers;
  - the day picker's list of days of the selected months, using a Gregorian
    month length.
- `Addressing` covers the triple nested loop that builds the shard URLs. In
  the monthly fetch, "All" expands to every domain option.
- `HourlyMerge` covers the hourly merge and the hourly sort loop as written,
  which can throw (see Findings). It also has the corrected loop that the
  rest of the model uses.
- `MonthlyMerge` covers the monthly summation, the emission of entries, and
  the sort by label.

The loops of the source are methods with loop invariants. Each method is
proved against a reference function defined by recursion. The properties the
dashboard relies on are lemmas about those functions:

- round trips between identifiers and numbers;
- the number, order, membership and distinctness of the URLs;
- the multiset, order and stability of each hourly series;
- independence of the monthly series from the order of the shards (any
  permutation) and from the order of the entries.

## Model

| member | source | states |
|---|---|---|
| Selection.SelectedTypes | website/src/components/Visualisation.js:51 | a label is selected exactly when it is paired with `true`; the result is no longer than the entries |
| Selection.SelectedTypesAppend | website/src/components/Visualisation.js:51 | the filter keeps entry order: selecting from two concatenated entry lists concatenates the selections |
| Selection.SelectedTypesDistinct | website/src/components/Visualisation.js:51 | distinct checkbox labels give a repetition-free selection |
| Selection.NothingTicked | website/src/components/Visualisation.js:51 | with no box ticked the selection is empty |
| JsText.Digits | website/src/components/Visualisation.js:82 | `toString` of a natural number is a non-empty digit string whose decimal value is the number, with a leading zero only for 0 |
| JsText.PadStart | website/src/components/Visualisation.js:81 | the padded string has length max(len, width), ends with the original and is zeros before it |
| JsText.Substring | website/src/components/Visualisation.js:56 | `substring` is the slice between its two ends, swapped when reversed and each clamped to the length: in particular a start past the end gives "" |
| JsText.TrimStart | website/src/components/Visualisation.js:56 | `parseInt` drops a prefix made only of white space and keeps the rest, which starts with a non-space character or is empty |
| JsText.LeadingRun | website/src/components/Visualisation.js:56 | `parseInt` reads the longest prefix of digits valid in the radix |
| JsText.ParseIntOfDigits | website/src/components/Visualisation.js:56 | `parseInt` of a digit string is its decimal value (leading zeros allowed) |
| JsText.ParseIntNegative | website/src/components/Visualisation.js:56 | `parseInt` of "-" followed by digits is the negated value |
| JsText.ParseIntOfEmpty | website/src/components/Visualisation.js:57 | `parseInt("")`, the result of reading past the end of a short identifier, is NaN |
| JsText.ParseIntOfMinus | website/src/components/Visualisation.js:56 | `parseInt("-")` is NaN |
| JsText.NumberRoundTrip | website/src/components/Visualisation.js:82 | `parseInt(String(v))` is `v` for every integer |
| JsText.NumberToStringInjective | website/src/components/Visualisation.js:82 | different integers have different decimal strings |
| JsText.StringLessIrreflexive | website/src/components/Visualisation.js:165-167 | string `<` is irreflexive |
| JsText.StringLessTransitive | website/src/components/Visualisation.js:165-167 | string `<` is transitive |
| JsText.StringLessTotal | website/src/components/Visualisation.js:165-167 | of two different strings one is `<` the other, so the comparator returns 0 only on equal labels |
| JsText.StringLessAsymmetric | website/src/components/Visualisation.js:165-167 | string `<` is asymmetric |
| Dates.UpdateMonthly | website/src/components/Visualisation.js:53-60 | the loop requests one fetch per selected month, in selection order, with that month's parsed (year, month) |
| Dates.UpdateHourly | website/src/components/Visualisation.js:62-70 | the loop requests one fetch per selected day, in selection order, with that day's parsed (year, month, day) |
| Dates.MonthsFetchedAsSelected | website/src/components/Visualisation.js:53-60 | every well-formed selected month is fetched under exactly its own "YYYY-MM" key |
| Dates.DaysFetchedAsSelected | website/src/components/Visualisation.js:62-70 | every well-formed selected day is fetched under exactly its own "YYYY-MM-DD" key |
| Dates.PlaceholderDay | website/src/components/Visualisation.js:39 | the "-" placeholder option parses to NaN, NaN, NaN and is fetched as "NaN-NaN-NaN" |
| Dates.DayRoundTrip | website/src/components/Visualisation.js:80-82 | encoding the parsed parts of a "YYYY-MM-DD" identifier gives the identifier back |
| Dates.MonthRoundTrip | website/src/components/Visualisation.js:136 | encoding the parsed parts of a "YYYY-MM" identifier gives the identifier back |
| Dates.DayPartsRoundTrip | website/src/components/Visualisation.js:80-82 | a four-digit year and two-digit month and day encode to a well-formed identifier that parses back to the same numbers |
| Dates.MonthPartsRoundTrip | website/src/components/Visualisation.js:136 | a four-digit year and two-digit month encode to a well-formed identifier that parses back to the same numbers |
| Dates.TwoDigitsRoundTrip | website/src/components/Visualisation.js:81 | padding the parsed value of a two-digit field reproduces the field, leading zero included |
| Dates.YearRoundTrip | website/src/components/Visualisation.js:82 | `toString` of a parsed four-digit year with no leading zero reproduces the year |
| Dates.TwoDigitsOrdered | website/src/components/Visualisation.js:46 | padded values 0..99 compare as strings in numeric order |
| Dates.DaysInMonth | website/src/components/Visualisation.js:43 | a month has 28 to 31 days |
| Dates.YearLength | website/src/components/Visualisation.js:43 | the twelve month lengths add up to 366 in a leap year and 365 otherwise |
| Dates.MonthDays | website/src/components/Visualisation.js:41-48 | the day list exists exactly when every selected month is a valid "YYYY-MM" |
| Dates.DaysOfMonth | website/src/components/Visualisation.js:43-47 | a month contributes as many days as its calendar length, the k-th being "YYYY-MM-" followed by k+1 padded to two digits |
| Dates.DaysOfMonthAscending | website/src/components/Visualisation.js:45-47 | a month's days are listed in strictly ascending string order |
| Dates.DaysOfMonthReadBack | website/src/components/Visualisation.js:45-47 | each listed day is a day identifier that parses to its month and day number |
| Dates.AvailableDaysHoldsMonth | website/src/components/Visualisation.js:38-49 | the options start with "-" and the default days, and then contain every day of every selected month |
| Dates.AvailableDaysLength | website/src/components/Visualisation.js:38-49 | the number of options is 1, plus the default days, plus the day counts of the selected months |
| Addressing.HourlyUrls | website/src/components/Visualisation.js:84-98 | the hourly fetch requests the URLs of the selected traffic × access × domain product, in loop order, with as many URLs as the product of the three selection sizes |
| Addressing.MonthlyUrls | website/src/components/Visualisation.js:132-148 | the monthly fetch requests the URLs of the product over the checked domains, in loop order, with the product of the sizes as count |
| Addressing.NestedUrls | website/src/components/Visualisation.js:139-148 | the outer loop yields the URLs of the whole product, in traffic-type-major order |
| Addressing.AccessTypeUrls | website/src/components/Visualisation.js:140-147 | the middle loop, recomputing the checked domains, yields one traffic type's URLs in access-type-major order |
| Addressing.DomainUrls | website/src/components/Visualisation.js:142-146 | the inner loop yields one URL per checked domain, in order |
| Addressing.ProductLength | website/src/components/Visualisation.js:89-91 | the product has exactly traffic × access × domains combinations |
| Addressing.ProductAt | website/src/components/Visualisation.js:89-91 | the combination at position (i·|A| + j)·|D| + k is (T[i], A[j], D[k]) |
| Addressing.ProductMembership | website/src/components/Visualisation.js:89-91 | a combination is fetched exactly when each of its parts is selected |
| Addressing.ProductDistinct | website/src/components/Visualisation.js:89-91 | repetition-free selections give a repetition-free product |
| Addressing.ShardUrlForm | website/src/components/Visualisation.js:93 | a URL is prefix/data/granularity/traffic/access/domain/date.json |
| Addressing.ShardUrlInjective | website/src/components/Visualisation.js:144 | with slash-free labels, two combinations with the same URL are equal |
| Addressing.UrlsDistinct | website/src/components/Visualisation.js:132-148 | repetition-free, slash-free selections make every requested URL distinct, so no shard is fetched twice |
| Addressing.AllDomainsExpansion | website/src/components/Visualisation.js:141 | with "All" selected the combinations range over all domain options, otherwise over the selected domains; "All" itself is never fetched when it is not an option |
| Addressing.AllShardRequested | website/src/components/Visualisation.js:141-144 | when "All" is itself a domain option and is ticked, an "All" shard is also requested for every selected traffic and access type |
| HourlyMerge.HourKeysMembers | website/src/components/Visualisation.js:103-107 | an hour is in the merged day exactly when some shard mentions it |
| HourlyMerge.MergedStep | website/src/components/Visualisation.js:102-111 | one more shard adds its hours and appends its points to each hour it mentions |
| HourlyMerge.MergeHourly | website/src/components/Visualisation.js:100-111 | the merge loop yields, for every mentioned hour, the concatenation of its points over the shards in order, and nothing else |
| HourlyMerge.AddEmptyHours | website/src/components/Visualisation.js:103-107 | the first inner loop adds each new hour of the shard with an empty list and leaves existing hours alone |
| HourlyMerge.AppendHours | website/src/components/Visualisation.js:108-110 | the second inner loop appends the shard's points to each hour it mentions and changes no other hour |
| HourlyMerge.SortDescPermutes | website/src/components/Visualisation.js:114-123 | the sort permutes the points |
| HourlyMerge.SortDescOrders | website/src/components/Visualisation.js:114-123 | the sorted points have non-increasing view counts |
| HourlyMerge.SortStable | website/src/components/Visualisation.js:114-123 | points with equal view counts keep their relative order |
| HourlyMerge.SortedUnique | website/src/components/Visualisation.js:114-123 | two descending sequences with the same points under every view count in the same order are equal |
| HourlyMerge.SortDescCharacterised | website/src/components/Visualisation.js:114-123 | the sort's result is the only descending arrangement that keeps the order within each view count |
| HourlyMerge.SortExample | website/src/components/Visualisation.js:114-123 | [a:2, b:9, c:9] sorts to [b:9, c:9, a:2] |
| HourlyMerge.SortHours | website/src/components/Visualisation.js:113-124 | the loop as written completes exactly when the hours are "0" … String(n-1), and then every hour is sorted |
| HourlyMerge.HourlyCallback | website/src/components/Visualisation.js:100-124 | the callback as written completes exactly when the merged hours are "0" … String(n-1), and then yields the sorted merge |
| HourlyMerge.MissingFirstHourThrows | website/src/components/Visualisation.js:113-114 | a non-empty day without hour "0" makes the loop throw |
| HourlyMerge.SingleHourThrows | website/src/components/Visualisation.js:113-114 | a day whose only shard holds hour "5" makes the loop throw |
| HourlyMerge.FullDaySorted | website/src/components/Visualisation.js:113-124 | when every shard holds exactly the hours "0" … String(n-1), the loop as written completes |
| HourlyMerge.EmptyDay | website/src/components/Visualisation.js:100-124 | no shards give an empty result, not an error |
| HourlyMerge.SortEveryHour | website/src/components/Visualisation.js:113-124 | the corrected loop sorts every hour of the merge and keeps the set of hours |
| HourlyMerge.HourlySeries | website/src/components/Visualisation.js:100-124 | the corrected callback yields the sorted merge |
| HourlyMerge.SeriesContents | website/src/components/Visualisation.js:100-124 | the series has exactly the mentioned hours, each descending, a permutation of its collected points and stable on ties |
| MonthlyMerge.TotalsStep | website/src/components/Visualisation.js:156-160 | one more point creates its label with its count, or adds its count to the label's total |
| MonthlyMerge.MergeMonthly | website/src/components/Visualisation.js:150-162 | the summation loop yields each label's total over all shards, with a repetition-free insertion order holding exactly those labels |
| MonthlyMerge.AddShard | website/src/components/Visualisation.js:154-161 | the inner loop adds one shard's points to the totals and appends each new label to the key order, which stays repetition-free and holds exactly the labels with totals |
| MonthlyMerge.TotalAppend | website/src/components/Visualisation.js:152-162 | a label's total over two point lists is the sum of its totals |
| MonthlyMerge.ShardOrderIrrelevant | website/src/components/Visualisation.js:152-162 | exchanging two blocks of points leaves every total unchanged |
| MonthlyMerge.TotalPermutation | website/src/components/Visualisation.js:152-162 | a label's total depends only on the multiset of points |
| MonthlyMerge.TotalsPermutation | website/src/components/Visualisation.js:150-162 | rearranging the points in any way leaves the labels and every total unchanged |
| MonthlyMerge.FlattenPermutation | website/src/components/Visualisation.js:152-155 | rearranging the shards rearranges the points the loop visits |
| MonthlyMerge.ShardPermutation | website/src/components/Visualisation.js:150-162 | the totals do not depend on the order in which the shards arrive |
| MonthlyMerge.TotalOverShards | website/src/components/Visualisation.js:152-162 | a label's total is its total over the earlier shards plus its total in the last shard |
| MonthlyMerge.MonthKeys | website/src/components/Visualisation.js:154-157 | every label of every shard has a total |
| MonthlyMerge.MonthKeysWitness | website/src/components/Visualisation.js:154-157 | every label with a total comes from some shard |
| MonthlyMerge.TotalsKeys | website/src/components/Visualisation.js:150-162 | the labels with totals are exactly the labels of the points |
| MonthlyMerge.EmptyMonth | website/src/components/Visualisation.js:150-162 | no shards give no totals |
| MonthlyMerge.EntriesContents | website/src/components/Visualisation.js:164 | the entries have distinct labels, hold exactly the labels with totals, and carry their totals |
| MonthlyMerge.SortByXPermutes | website/src/components/Visualisation.js:164-172 | the sort by label permutes the entries |
| MonthlyMerge.SortByXAscending | website/src/components/Visualisation.js:164-172 | entries with distinct labels sort into strictly ascending label order |
| MonthlyMerge.SortByXTies | website/src/components/Visualisation.js:164-172 | equal labels keep their order ([a:1, a:2] stays as it is), as the stable sort with a 0-on-tie comparator does |
| MonthlyMerge.SortByXContents | website/src/components/Visualisation.js:164-172 | sorting keeps the set of labels and every label's total |
| MonthlyMerge.MonthlyCallback | website/src/components/Visualisation.js:150-172 | the monthly series is strictly ascending by label, holds exactly the labels of the shards, and each label carries its total; no shards give the empty series |
| MonthlyMerge.AscendingUnique | website/src/components/Visualisation.js:164-172 | two ascending series with the same labels and totals are equal, so the order of the entries does not matter |
| MonthlyMerge.SeriesOfEqualTotals | website/src/components/Visualisation.js:150-172 | inputs with the same totals give the same series |
| MonthlyMerge.SeriesOrderFree | website/src/components/Visualisation.js:150-172 | the same shards received in any two orders give the same monthly series |

## Definitions

These functions define what the source computes. The contracts in the table above are stated in terms of them.

- `JsText.ParseInt`, with `ParseMagnitude` and `ParseRun`: `parseInt` without a radix (Visualisation.js:56-57, 65-67).
- `JsText.NumberToString`: `Number#toString` on an integer or NaN (Visualisation.js:81-82, 136).
- `JsText.Join`: `Array#join` (Visualisation.js:82, 93).
- `JsText.StringLess`: `<` on strings (Visualisation.js:165-167).
- `Dates.ParseDay` and `Dates.ParseMonth`: the fields the update loops read (Visualisation.js:56-57, 65-67).
- `Dates.TwoDigits`, `Dates.EncodeDay` and `Dates.EncodeMonth`: the keys the fetches rebuild (Visualisation.js:81-82, 136).
- `Dates.MonthLength`: `moment(yearMonth, "YYYY-MM").daysInMonth()`, None where that is NaN (Visualisation.js:43).
- `Dates.DaysOf`, `Dates.MonthDays` and `Dates.AvailableDays`: the day picker's options (Visualisation.js:38-49).
- `Dates.Each`: the loops' one parse per selected identifier, in order (Visualisation.js:54-59, 63-69).
- `Addressing.ShardUrl` and `Addressing.Urls`: the URL of one combination and of a list of them (Visualisation.js:92-93, 143-144).
- `Addressing.CheckedDomains`: the "All" expansion (Visualisation.js:141).
- `Addressing.Triples`, `Addressing.Pairs` and `Addressing.Product`: the combinations of the three loops, in loop order (Visualisation.js:89-91, 139-142).
- `HourlyMerge.HourKeys`, `HourlyMerge.Collected` and `HourlyMerge.Merged`: the merged day (Visualisation.js:101-111).
- `HourlyMerge.Insert` and `HourlyMerge.SortDesc`: the stable descending sort by views (Visualisation.js:114-123).
- `HourlyMerge.SortAll` and `HourlyMerge.HoursIndexed`: every hour sorted, and the condition under which the as-written loop completes (Visualisation.js:113-124).
- `MonthlyMerge.Flatten`, `MonthlyMerge.Xs`, `MonthlyMerge.Total` and `MonthlyMerge.Totals`: the summed result object (Visualisation.js:151-162).
- `MonthlyMerge.Entries`: `Object.entries(result).map(...)` over the insertion order (Visualisation.js:164).
- `MonthlyMerge.InsertByX` and `MonthlyMerge.SortByX`: the stable ascending sort by label (Visualisation.js:164-172).

## Left out

- The fetches and `Promise.all` are left out: the model returns the URL list, and takes the decoded shard payloads, in request order, as inputs.
- Asynchrony and stale responses are left out, because they depend on the runtime.
- The store, the React hooks, `setHourlyData`/`setMonthlyData`, `currentHour` and the rendered markup (including `paddedHour`) are I/O or view code and are not part of this model.
- `moment` is replaced by `Dates.DaysInMonth`, the Gregorian calendar.
  - A month is accepted only in the exact "DDDD-DD" form with month 1..12.
  - Anything else is treated as the NaN day count that makes `Array(...)` throw, so `AvailableDays` has no value.
  - Moment's lenient parsing of other forms is not modelled.
- JsText.TrimStart: it treats only these characters as white space: space, tab, line feed, carriage return, vertical tab, form feed, no-break space, byte-order mark, and the line and paragraph separators. The other Unicode space separators that `parseInt` also skips are not modelled.
- JsText.NumberToString: it is exact for integers, and the exponent notation JavaScript uses above 10^21 is not modelled.
- JsText.StringLess: it compares characters by code point. JavaScript compares UTF-16 code units, which differs only above U+FFFF.
- View counts are modelled as unbounded integers. Floating point, and the string concatenation `+=` would perform on non-numeric counts, are not modelled.
- Object keys are modelled as a map. Inherited keys such as "constructor", which `in` would also see on a plain object, are not modelled.
- `Object.entries` lists integer-like keys first, in numeric order. The model uses insertion order. By MonthlyMerge.AscendingUnique the sorted series is the same either way.
- `for..in` over a shard visits keys in an order the model leaves open: AddEmptyHours and AppendHours choose keys arbitrarily. Their result does not depend on that order.
- The sorts are modelled as functions returning a new sequence. In-place update and aliasing of the sorted arrays are not modelled.
- `Array.prototype.sort` is stable. The monthly comparator never returns 0 for distinct labels, so the monthly order is fully determined.
- The merges are not commutative for every permutation of shards.
  - The hourly merge concatenates in request order and the sort is stable, so permuting shards can reorder points that have equal view counts.
  - The model states this precisely with SortStable and SortedUnique.
  - For the monthly merge, order independence holds for every permutation: for the totals (ShardPermutation) and for the series (SeriesOrderFree).
- The triple loop is split into three methods, NestedUrls, AccessTypeUrls and DomainUrls, one per nesting level.
  - Both fetches share these methods, so the hourly fetch also evaluates the "All" test in its middle loop, which fetchHourly does not do.
  - HourlyUrls passes its selected domains as both the selection and the option list, and `CheckedDomains(s, s)` is `s` either way, so the URLs are those of lines 89-98.
- The monthly summation's inner loop is the method AddShard, called from MergeMonthly's loop. Only the structure changes.
- The domain option lists live in the store, which is not part of this model. FormGroup.js:26-33 draws one checkbox per option, so "All" can be ticked only if it is itself an option. In that case line 141 also requests an ".../All/<month>.json" shard (Addressing.AllShardRequested). This is an observation about the code, not executed.

## Findings

| source | as written | input that shows it | evidently intended | confidence | as-written member | corrected member |
|---|---|---|---|---|---|---|
| website/src/components/Visualisation.js:113 | `for (const hour in Object.keys(result))` iterates the indices "0" … "n-1" of the key array, not the hour keys, so `result[hour]` is undefined and `.sort` throws whenever the merged hours are not exactly "0" … "n-1" | a day whose only shard holds hour "5": the loop visits "0", which is absent, so the callback throws and the day's series is never stored | iterate the hour keys themselves (`for (const hour of Object.keys(result))`), sorting every merged hour | not executed | HourlyMerge.SortHours, HourlyMerge.SingleHourThrows | HourlyMerge.SortEveryHour, HourlyMerge.HourlySeries |
