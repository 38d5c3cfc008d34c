# Manufacturing order pages: a verified model in Dafny

The web front end of the manufacturing-order system has four pages that talk to
a spreadsheet backend.

- **Issue order.** It issues an order id.
- **QC record.** It records a first-article inspection and shows the record that comes back.
- **Production record.** It records the start or the finish of a production run. A finish carries an output quantity.
- **Order query.** It fetches every order event and keeps the rows that match three filter boxes (order id, start time, finish time). It sorts them by order id and sums each order's finished runs into a statistics table. Both tables can be exported as CSV text.

This project models those pages and proves what they promise.

- **The query pipeline** (`QueryOrder.dfy`, `QueryExport.dfy`). The filter, the stable sort, the aggregation pass and `Object.values`, the duration arithmetic and formatting, and the two CSV builders. The aggregation pass is a method with a loop that updates a map. Like the page, it creates no entry for an order id that names a member every JavaScript object inherits (`constructor`, `toString`, …). It is proved equal to a fold over the remaining rows, and the fold is proved against an independent per-order definition of each entry.
- **The form pages** (`ProductionRecord.dfy`, `QCRecord.dfy`, `IssueOrder.dfy`). Each page is a class whose fields are the page's state hooks: order id, quantity, tab, loading flag, status banner, shown record. The submit handler and the scan handler are methods.
- **Shared pieces.**
  - `Text.dfy`: `includes`, `trim`, `join`/`split`.
  - `Numbers.dfy`: decimal `parseInt` and `String(n)`.
  - `Ordering.dfy`: the lexicographic order standing for `localeCompare`, and the stable sort.
  - `Backend.dfy`: the requests, the `{status, message, data}` envelope or a thrown error, and the banner that results.

Several parts of the environment are parameters rather than models.

- **Timestamp parsing.** `new Date(s).getTime()` is a parameter `parse: string -> Option<int>`. `None` stands for NaN.
- **Date display.** `toLocaleString('zh-TW')` is a parameter `display`.
- **The backend.** It is a parameter `backend: Request -> Reply<D>`. Each handler returns `sent`, the request it made, if any.
- **Rows.** They are records of strings, and `""` stands for an absent field.

## Model

| member | source | states |
|---|---|---|
| `QueryOrder.Filter` | src/pages/QueryOrder.jsx:64-84 | `resultData.filter(...)`: never longer than the fetched list; which rows it keeps is `FilterMembers`, their order `FilterAppend` |
| `QueryOrder.FilterMembers` | src/pages/QueryOrder.jsx:64-84 | a row is kept exactly when it was fetched and all three boxes match it |
| `QueryOrder.NoFiltersKeepStarted` | src/pages/QueryOrder.jsx:66-81 | with all boxes empty, exactly the rows with a start time are kept, finished or not (empty start box demands a start time, empty finish box demands nothing) |
| `QueryOrder.IdBoxIsSubstringTest` | src/pages/QueryOrder.jsx:66 | a non-empty order-id box matches a row exactly when its text occurs at some position of the order id (case-sensitive substring), whatever the other boxes hold |
| `QueryOrder.StartBoxIsSubstringTest` | src/pages/QueryOrder.jsx:72-74 | a non-empty start box matches a row exactly when its text occurs at some position of the start time |
| `QueryOrder.FinishBoxIsSubstringTest` | src/pages/QueryOrder.jsx:79-81 | a non-empty finish box matches a row exactly when its text occurs at some position of the finish time |
| `QueryOrder.FilterAppend` | src/pages/QueryOrder.jsx:64 | filtering keeps the rows' order: filtering a concatenation is the concatenation of the filtered parts |
| `QueryOrder.Detail` | src/pages/QueryOrder.jsx:87-89 | the detail list, the kept rows sorted by order id; its meaning is `DetailIsSortedSelection` |
| `QueryOrder.DetailIsSortedSelection` | src/pages/QueryOrder.jsx:64-89 | the detail list is a permutation of the kept rows, ascending by order id, and rows sharing an order id keep their fetched order (stable) |
| `Ordering.SortBy` | src/pages/QueryOrder.jsx:87 | `Array.prototype.sort` with a key comparison; characterised by `SortByIsStableSort` and `SortByPermutes` |
| `Ordering.SortByIsStableSort` | src/pages/QueryOrder.jsx:87 | the sort's result is ascending by key, and for every key the elements with that key appear in their input order |
| `Ordering.SortByPermutes` | src/pages/QueryOrder.jsx:87 | the sort is a permutation: every element occurs as often as in the input |
| `Ordering.SortByMembers` | src/pages/QueryOrder.jsx:87 | the sort neither loses nor invents elements |
| `Ordering.SortBySum` | src/pages/QueryOrder.jsx:122 | sorting does not change a sum over the elements |
| `Ordering.SortByDistinct` | src/pages/QueryOrder.jsx:122 | sorting entries with distinct keys keeps the keys distinct |
| `Ordering.SortedDistinctIsStrict` | src/pages/QueryOrder.jsx:122 | a sorted table with distinct order ids is strictly ascending |
| `Ordering.LexLeTotal` | src/pages/QueryOrder.jsx:87 | any two order ids are comparable |
| `Ordering.LexLeAntisymmetric` | src/pages/QueryOrder.jsx:87 | two ids ordered both ways are equal |
| `Ordering.LexLeTransitive` | src/pages/QueryOrder.jsx:87 | the order is transitive |
| `QueryOrder.CalculateDuration` | src/pages/QueryOrder.jsx:28-33 | the duration is end minus start, unclamped, when both times are present and parse to non-zero values, and 0 otherwise |
| `QueryOrder.DurationAntisymmetric` | src/pages/QueryOrder.jsx:28-33 | swapping start and end negates the duration, so an end before its start contributes a negative time |
| `QueryOrder.TruncRem` | src/pages/QueryOrder.jsx:39-40 | JavaScript's `%`: the remainder has the sign of the dividend, is below the divisor in size, and differs from the dividend by a multiple of the divisor, which fixes its value |
| `QueryOrder.FormatDuration` | src/pages/QueryOrder.jsx:35-42 | the text is `"-"` exactly for 0 and holds no comma or line break |
| `QueryOrder.FormatDurationPositive` | src/pages/QueryOrder.jsx:35-42 | for a positive duration the text is `{h}h {m}m {s}s` for any h, m, s with `h*3600 + m*60 + s` the whole seconds and `0 <= m, s < 60` |
| `QueryOrder.FormatDurationNegative` | src/pages/QueryOrder.jsx:35-42 | a negative duration is written with a leading minus sign |
| `QueryOrder.FormatDate` | src/pages/QueryOrder.jsx:19-26 | an absent timestamp shows as the empty text, any other as its locale display |
| `QueryOrder.OrderIdsMembers` | src/pages/QueryOrder.jsx:101-111 | the listed order ids are exactly the ids the rows carry |
| `QueryOrder.OrderIdsSet` | src/pages/QueryOrder.jsx:101-111 | the set of listed ids equals the set of the rows' order ids |
| `QueryOrder.AggregateKeys` | src/pages/QueryOrder.jsx:101-111 | the fold over some rows has an entry for exactly the order ids of those rows; the page folds only the rows whose order id is not an inherited member name (`Aggregation`) |
| `QueryOrder.AggregateEntries` | src/pages/QueryOrder.jsx:112-119 | each entry of the table holds its order's number of finished rows, the sum of their durations and the sum of their quantities as `parseInt` reads them, 0 where it gives NaN |
| `QueryOrder.Aggregation` | src/pages/QueryOrder.jsx:101-120 | the loop, with line 103's truthiness test, ends with the fold over exactly the rows whose order id is not an inherited member name, and with the keys in insertion order |
| `QueryOrder.Values` | src/pages/QueryOrder.jsx:122 | `Object.values` lists the entries in the order of the keys |
| `QueryOrder.BuildStats` | src/pages/QueryOrder.jsx:101-122 | the statistics the page computes are the table as written: the per-order entries of the rows with own-property order ids, sorted by order id |
| `QueryOrder.Stats` | src/pages/QueryOrder.jsx:101-122 | the intended table, one entry per order id sorted by order id; its meaning is `StatsCharacterised` |
| `QueryOrder.EntryCountsCoverFinished` | src/pages/QueryOrder.jsx:112-119 | over the rows' order ids the counts add up to the number of finished rows |
| `QueryOrder.EntriesOfShape` | src/pages/QueryOrder.jsx:101-119 | entries built for distinct ids have distinct ids, hold their promised totals, and name exactly those ids |
| `QueryOrder.StatsSorted` | src/pages/QueryOrder.jsx:122 | the statistics table is ascending by order id |
| `QueryOrder.StatsDistinct` | src/pages/QueryOrder.jsx:101-111 | no two entries share an order id |
| `QueryOrder.StatsEntryTotals` | src/pages/QueryOrder.jsx:112-119 | every entry holds its order's totals over finished rows, zeros for an order with none |
| `QueryOrder.StatsIds` | src/pages/QueryOrder.jsx:101-111 | the table has an entry for exactly the order ids of the rows, including orders with no finished row |
| `QueryOrder.StatsCountTotal` | src/pages/QueryOrder.jsx:112-119 | the counts of the table add up to the number of finished rows |
| `QueryOrder.StatsCharacterised` | src/pages/QueryOrder.jsx:101-122 | all of the above at once: strictly one entry per order id, ascending, with the promised totals and counts |
| `QueryOrder.InheritedOrderIdLosesEntry` | src/pages/QueryOrder.jsx:103 | a started row of order "constructor" is listed in the detail table, has no statistics entry as the page computes them, and has a zero entry in the intended table |
| `QueryOrder.ConstructorRowIsListed` | src/pages/QueryOrder.jsx:64-87 | the row of order "constructor" passes the default filter and is the whole detail list |
| `QueryOrder.ConstructorRowHasNoOwnEntry` | src/pages/QueryOrder.jsx:103-110 | as the page computes them, the statistics of that row are empty |
| `QueryOrder.ConstructorRowHasEntry` | src/pages/QueryOrder.jsx:101-122 | the intended statistics of that row are one zero entry |
| `QueryOrder.StatsAsWritten` | src/pages/QueryOrder.jsx:101-122 | the table the page computes: the intended table of the rows whose order id is not an inherited member name |
| `QueryOrder.RowsWithOwnKeys` | src/pages/QueryOrder.jsx:103 | the rows whose order id is not an inherited member name, in order; which they are is `RowsWithOwnKeysMembers` |
| `QueryOrder.RowsWithOwnKeysMembers` | src/pages/QueryOrder.jsx:103 | a row is kept exactly when it is one of the rows and its order id is not an inherited property name |
| `QueryOrder.RowsWithOwnKeysAll` | src/pages/QueryOrder.jsx:103 | when no order id is an inherited property name, every row is kept, in order |
| `QueryOrder.StatsAsWrittenAgrees` | src/pages/QueryOrder.jsx:101-122 | when no order id is an inherited property name, the page's statistics are the intended table |
| `QueryOrder.QueryOrderView.constructor` | src/pages/QueryOrder.jsx:8-17 | the page opens with empty boxes and tables, no banner, not loading |
| `QueryOrder.QueryOrderView.HandleQuery` | src/pages/QueryOrder.jsx:44-131 | a success envelope with a list replaces the detail table by the filtered, sorted rows and the statistics by their table as written, which is the intended table when no order id is an inherited member name; any other outcome keeps both tables and shows the failure message; loading ends false and the boxes are unchanged |
| `QueryOrder.QueryOrderView.HandleScan` | src/pages/QueryOrder.jsx:323 | a scan replaces the order-id box and closes the scanner, leaving the tables alone |
| `QueryExport.Csv` | src/pages/QueryOrder.jsx:147 | the exported text starts with the byte-order mark |
| `QueryExport.CsvRoundTrip` | src/pages/QueryOrder.jsx:147 | a table of non-empty rows whose cells hold no comma and no line break reads back exactly: one line per row, no trailing line |
| `QueryExport.ReadsLines` | src/pages/QueryOrder.jsx:147 | without line breaks in the cells, the text splits back into one line per row |
| `QueryExport.CellsOfLines` | src/pages/QueryOrder.jsx:147 | lines of cells without commas split back into those cells |
| `QueryExport.NumberTextIsPlain` | src/pages/QueryOrder.jsx:146 | a written number holds no comma or line break |
| `QueryExport.QuantityReadsBack` | src/pages/QueryOrder.jsx:146 | the quantity cell of an entry reads back through `parseInt` as the entry's total |
| `QueryExport.StatsCsv` | src/pages/QueryOrder.jsx:144-149 | the content of `stats.csv`; what it reads back as is `StatsCsvRoundTrip` |
| `QueryExport.StatsCsvRoundTrip` | src/pages/QueryOrder.jsx:144-149 | with plain order ids, `stats.csv` reads back as the header and one line per entry, in table order |
| `QueryExport.StatsRecordsShowEntries` | src/pages/QueryOrder.jsx:146 | each statistics line has three cells: the order id, the formatted total time, and a quantity that reads back as the total |
| `QueryExport.CommaInOrderIdSplitsCell` | src/pages/QueryOrder.jsx:146-147 | with no quoting, an order id holding a comma comes back as two cells and shifts the line to four cells |
| `QueryExport.DetailsCsv` | src/pages/QueryOrder.jsx:151-156 | the content of `details.csv`; what it reads back as is `DetailsCsvRoundTrip` |
| `QueryExport.DetailsCsvRoundTrip` | src/pages/QueryOrder.jsx:151-156 | with plain cells, `details.csv` reads back as the header and one five-cell line per detail row, in order |
| `Text.Contains` | src/pages/QueryOrder.jsx:66 | `String.prototype.includes`; its meaning is `ContainsIff` |
| `Text.ContainsIff` | src/pages/QueryOrder.jsx:66 | `includes` finds the needle exactly when it occurs at some position |
| `Text.Trim` | src/pages/ProductionRecord.jsx:21 | `String.prototype.trim`; its meaning is `TrimStartSplits`, `TrimEndSplits` and `TrimEmptyIff` |
| `Text.TrimEmptyIff` | src/pages/ProductionRecord.jsx:21 | `!s.trim()` holds exactly when `s` is whitespace only |
| `Text.TrimStartSplits` | src/pages/ProductionRecord.jsx:21 | leading trimming removes a whitespace-only prefix and keeps the rest unchanged |
| `Text.TrimEndSplits` | src/pages/ProductionRecord.jsx:21 | trailing trimming removes a whitespace-only suffix and keeps the rest unchanged |
| `Text.JoinSplit` | src/pages/QueryOrder.jsx:147 | joining what was split restores the text |
| `Text.SplitJoin` | src/pages/QueryOrder.jsx:147 | splitting what was joined recovers separator-free parts |
| `Numbers.ParseInt` | src/pages/QueryOrder.jsx:114 | decimal `parseInt`; its meaning is `ParseIntReadsWritten`, `ParseIntNoDigits` and `DigitPrefixIsMaximal` |
| `Numbers.ParseIntReadsWritten` | src/pages/QueryOrder.jsx:114 | `parseInt` reads back the number `String(n)` wrote, ignoring a following non-digit tail |
| `Numbers.ParseIntNoDigits` | src/pages/QueryOrder.jsx:114 | text without digits parses to NaN, so it counts as 0 output |
| `Numbers.DigitPrefixIsMaximal` | src/pages/QueryOrder.jsx:114 | the digits read are a prefix of the text, and what follows is not a digit |
| `Numbers.NatToStringValue` | src/pages/QueryOrder.jsx:146 | the digits written for a number have that number as their value |
| `Backend.StatusAfter` | src/pages/ProductionRecord.jsx:38-46 | the banner is a success exactly for a success envelope, carries the envelope's or the thrown error's message, and is never empty |
| `ProductionRecordPage.QuantityInvalid` | src/pages/ProductionRecord.jsx:32 | `quantity === '' \|\| parseInt(quantity) < 0`; what it refuses and lets through is `NegativeQuantityInvalid` and `NonNumericQuantityAccepted` |
| `ProductionRecordPage.NegativeQuantityInvalid` | src/pages/ProductionRecord.jsx:32-34 | the written form of a negative number is refused |
| `ProductionRecordPage.NonNumericQuantityAccepted` | src/pages/ProductionRecord.jsx:32-35 | a non-empty quantity without digits passes the check and is sent as NaN |
| `ProductionRecordPage.ProductionRecordForm.constructor` | src/pages/ProductionRecord.jsx:8-17 | the page opens on the start tab with empty boxes and no banner |
| `ProductionRecordPage.ProductionRecordForm.HandleSubmit` | src/pages/ProductionRecord.jsx:19-50 | blank id: no call, no change; finish tab with empty or negative quantity: error banner, no call, inputs kept; otherwise `startWork(orderId)` or `finishWork(orderId, parseInt(quantity))` is sent, the banner follows the reply, success clears the id (and the quantity on the finish tab), failure keeps both; loading ends false |
| `ProductionRecordPage.ProductionRecordForm.HandleScan` | src/pages/ProductionRecord.jsx:52-55 | a scan sets the order id and closes the scanner, leaving tab and quantity alone |
| `QCRecordPage.FormatDate` | src/pages/QCRecord.jsx:46-53 | an absent timestamp shows as `"-"`, any other as its locale display |
| `QCRecordPage.FormatDateAgreesWithQuery` | src/pages/QCRecord.jsx:46-53 | this page and the query page show a timestamp alike exactly when it is present |
| `QCRecordPage.QCRecordForm.constructor` | src/pages/QCRecord.jsx:8-12 | the page opens with an empty box, no banner and no record |
| `QCRecordPage.QCRecordForm.HandleSubmit` | src/pages/QCRecord.jsx:14-39 | blank id: error banner `請輸入製令編號` and no call; otherwise `qcRecord(orderId)` is sent, success shows the returned record and clears the id, failure shows an error, keeps the id and shows no record; loading ends false |
| `QCRecordPage.QCRecordForm.HandleScan` | src/pages/QCRecord.jsx:41-44 | a scan sets the order id and closes the scanner |
| `IssueOrderPage.IssueOrderForm.constructor` | src/pages/IssueOrder.jsx:8-11 | the page opens with an empty box and no banner |
| `IssueOrderPage.IssueOrderForm.HandleIssue` | src/pages/IssueOrder.jsx:13-33 | blank id: no call, no change; otherwise `issueOrder` is sent with the untrimmed id, the banner follows the reply, success clears the id and failure keeps it; loading ends false |
| `IssueOrderPage.IssueOrderForm.HandleScan` | src/pages/IssueOrder.jsx:35-40 | a scan sets the order id and closes the scanner without submitting |

## Left out

- Durations are not clamped: `calculateDuration` returns `end - start`, so an end before its start gives a negative time and can make `totalTimeMs` negative (`QueryOrder.CalculateDuration`, `QueryOrder.DurationAntisymmetric`).
- Field values are strings, with `""` for an absent field. `String(undefined)` is `"undefined"`, so a non-empty filter such as `und` matches a row with no finish time. The model does not capture this.
- A numeric `orderId` is not modelled. The stats sort calls `a.orderId.localeCompare`, which throws for a number.
- `Date` parsing and `toLocaleString('zh-TW')` are parameters, not models. The `catch` around `toLocaleString` is not modelled, because with a parameter there is no error to catch.
- Strings are Dafny strings, sequences of Unicode scalar values, where JavaScript strings are UTF-16 code units. A character above U+FFFF is one element here and two code units in JavaScript, so lengths differ for such text.
- `localeCompare` is modelled as lexicographic order of characters (`Ordering.LexLe`). Locale collation is not modelled. Even as a code-unit order it differs for characters above U+FFFF: they sort after U+E000–U+FFFF here, while their surrogate code units sort before.
- `parseInt` is decimal only. The `0x` hexadecimal prefix that `parseInt` accepts without a radix is not modelled.
- `String(n)` is modelled for integers only. Exponent notation at or above 1e21 is not modelled, and neither are fractional or NaN totals.
- Numbers are unbounded integers, where JavaScript numbers are doubles. `parseInt` of more than about 16 digits, and totals or durations above 2^53, are rounded in JavaScript but exact in the model.
- QueryOrder.Values: `Object.values` returns integer-like keys first, in ascending numeric order, before the others. The model lists keys in insertion order. The stats sort that follows makes the final table the same.
- For an order id that names an inherited member, the page's increments at lines 116-118 write to that inherited member (for `__proto__`, to `Object.prototype` itself). The model records only that the table is unchanged.
- `QueryOrder.QueryOrderView.HandleQuery`: the `loading` flag is true only while the call is awaited. The model states only its final value. The same holds for the three submit handlers.
- Overlapping submissions are not modelled, nor are the double-submit guard (`disabled={loading}`) and the constraints of the `type="number"` quantity input.
- `downloadCSV` is not modelled: Blob creation, the DOM link and the click. The export content is modelled as a function of the tables.
- Rendering, the date-picker `showPicker`, the scanner component and the banner's auto-close timer are not modelled.
- The input `onChange` setters are not modelled: `setFilters`, `setOrderId`, `setQuantity`, `setActiveTab`, `setShowScanner`.
- `src/services/api.js` (URL lookup, `fetch`, JSON decoding) is not part of this model. The backend is a function from request to reply.
- The camera capture, settings, layout and routing components are not part of this model.
- A success envelope whose `data` is missing is not modelled. On the QC page, such a reply sets `successData` to `undefined`, while the model always shows `Some(data)`.

## Findings

| source | as written | input that shows it | evidently intended | confidence | as-written member | corrected member |
|---|---|---|---|---|---|---|
| src/pages/QueryOrder.jsx:101-103 | `agg` is a plain object and `!agg[item.orderId]` tests truthiness, so an order id that names an inherited property (`constructor`, `toString`, `__proto__`, …) never gets its own entry | one started row with order id `constructor` (`ConstructorRows`): it is listed in the detail table but missing from the statistics | every order id of the filtered rows gets one entry, as for any other id | not executed | `QueryOrder.StatsAsWritten`, computed by `QueryOrder.BuildStats` and shown by `QueryOrder.InheritedOrderIdLosesEntry` | `QueryOrder.Stats`, characterised by `QueryOrder.StatsCharacterised` and equal to the page's table when no order id is inherited (`QueryOrder.StatsAsWrittenAgrees`) |
