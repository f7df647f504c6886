# Developer property price chart — a Dafny model

This project models the data derivation behind the "Developer Property Price
Distribution" component (`src/components/PricePercent.jsx`). On mount and
whenever the search term changes, the component runs one effect. The effect:

1. joins the month records of 2024 and of 2025 into one list;
2. adds up every `propertyPrice` into a grand total;
3. groups the records by `developerName` in an accumulator object, summing
   each developer's prices;
4. turns the accumulator's entries (in `Object.values` order) into rows
   `{name, value, percentage}`, the percentage being the share of the grand
   total;
5. keeps, for the table, the rows whose lower-cased name contains the
   lower-cased term (all rows for an empty term).

The pie's slices and the table's swatches are coloured from an eight-colour
palette by position, `COLORS[index % COLORS.length]`.

Modules, in dependency order:

- `ObjectKeys` — JavaScript property keys: which keys are array indices, the
  order in which `Object.values` visits own properties (array indices first,
  ascending, then the other keys in creation order), and the names a plain
  object inherits from `Object.prototype`.
- `MonthRecords` — the records, the flattening of the two years, the total,
  the per-name sums and the first-occurrence order of names.
- `DeveloperSummary` — the grouping reduce as an imperative loop filling a
  map and a key list. `SummarizeAsWritten` is the loop as the component
  writes it, on an accumulator that inherits a given set of names; the
  records whose name is inherited never reach it (`Reaching`). `Summarize`
  is the corrected loop, where every record reaches the accumulator. Also
  the conservation lemmas.
- `PriceRows` — rows and percentages. The percentage is an exact rational;
  a zero total gives NaN or an infinity, as JavaScript division does.
- `SearchFilter` — ASCII lower-casing, `includes` and the filter.
- `ChartColors` — the palette and the colour of each slice and swatch.
- `PriceChart` — the effect body `DeriveChart`, proved equal to the
  specification function `ChartFor`, and the end-to-end properties. Both
  take the names the accumulator inherits: `InheritedNames` for the
  component's plain `{}`, the empty set for an accumulator without a
  prototype. The grand total always counts every record; the rows cover the
  records that reach the accumulator. When no developer name is inherited,
  which is the case for every realistic name, the rows add up to the grand
  total and the shares to 100.

The term `a` keeps both Alpha and Beta: `"beta"` contains `a`
(`SearchFilter.TermAKeepsAlphaAndBeta`).

## Model

| member | source | states |
|---|---|---|
| ObjectKeys.InsertByIndex | src/components/PricePercent.jsx:36 | inserting a key into the visiting order adds exactly that key: the multiset grows by one copy of it |
| ObjectKeys.PrependKeepsAscending | src/components/PricePercent.jsx:36 | a key no larger than any key of an ascending list can go in front and the list stays ascending |
| ObjectKeys.InsertKeepsAscending | src/components/PricePercent.jsx:36 | inserting into an ascending list of array-index keys keeps it ascending |
| ObjectKeys.SortByIndex | src/components/PricePercent.jsx:36 | ordering the array-index keys is a permutation of them |
| ObjectKeys.SortIsAscending | src/components/PricePercent.jsx:36 | the array-index keys are visited in ascending numeric order |
| ObjectKeys.SplitPermutes | src/components/PricePercent.jsx:36 | splitting keys into the array indices and the other keys loses and duplicates nothing |
| ObjectKeys.IndexKeysAreIndices | src/components/PricePercent.jsx:36 | the first part holds only array indices, the second part none |
| ObjectKeys.OwnKeyOrderPermutes | src/components/PricePercent.jsx:36 | `Object.values` visits each own property as often as it was created |
| ObjectKeys.SplitLengths | src/components/PricePercent.jsx:36 | the two parts together are as long as the key list |
| ObjectKeys.OwnKeyOrderShape | src/components/PricePercent.jsx:36 | the visiting order has the array-index keys first, ascending, then every other key in creation order |
| ObjectKeys.NoIndexSplit | src/components/PricePercent.jsx:36 | with no array-index key, the first part is empty and the second is the whole list |
| ObjectKeys.NoIndexKeepsOrder | src/components/PricePercent.jsx:36 | with no array-index key, properties are visited in creation order |
| ObjectKeys.DistinctCounts | src/components/PricePercent.jsx:36 | a list of distinct keys holds each key at most once |
| ObjectKeys.PermutationKeepsDistinct | src/components/PricePercent.jsx:36 | a rearrangement of distinct keys has distinct keys |
| ObjectKeys.OwnKeyOrderDistinct | src/components/PricePercent.jsx:36 | `Object.values` never visits a property twice |
| ObjectKeys.NamedKeysKeepRank | src/components/PricePercent.jsx:36 | the keys that are not array indices keep their relative creation order |
| ObjectKeys.OwnKeyOrder | src/components/PricePercent.jsx:36 | the order in which `Object.values` visits the own properties created in the given order: the array-index keys ascending, then the other keys in creation order |
| ObjectKeys.InheritedNames | src/components/PricePercent.jsx:28 | the names `!acc[developerName]` finds on a plain `{}` through `Object.prototype` |
| ObjectKeys.WithoutMembers | src/components/PricePercent.jsx:28-30 | leaving out a set of names keeps exactly the keys outside it |
| ObjectKeys.WithoutKeepsRank | src/components/PricePercent.jsx:28-30 | leaving out names keeps the relative order of the remaining keys |
| ObjectKeys.WithoutNone | src/components/PricePercent.jsx:28-30 | leaving out names that do not occur changes nothing |
| MonthRecords.AllMonths | src/components/PricePercent.jsx:14-17 | with both years present: the 2024 records, then the 2025 records, nothing else; a missing year gives no result (the code throws) |
| MonthRecords.TotalPrice | src/components/PricePercent.jsx:20-22 | the grand-total reduce: the sum of `propertyPrice` over all records, starting from 0 |
| MonthRecords.TotalPriceAppend | src/components/PricePercent.jsx:20-22 | the total of two consecutive stretches is the sum of their totals |
| MonthRecords.NamesIff | src/components/PricePercent.jsx:26-33 | a name is a developer name exactly when some record carries it |
| MonthRecords.PriceOfAbsent | src/components/PricePercent.jsx:26-33 | a name no record carries sums to 0 |
| MonthRecords.FirstIndex | src/components/PricePercent.jsx:26-33 | the position of a name's first record: it carries the name and no earlier record does |
| MonthRecords.FirstOccurrences | src/components/PricePercent.jsx:26-33 | the order in which the reduce creates entries lists every developer name and only those, each once |
| MonthRecords.FirstOccurrencesOrdered | src/components/PricePercent.jsx:26-33 | entries are created in order of each name's first record |
| MonthRecords.OrderIsRank | src/components/PricePercent.jsx:26-33 | first-occurrence order is the same as strictly increasing first position |
| DeveloperSummary.AppendRecord | src/components/PricePercent.jsx:27-31 | one more record adds its name, adds its price to that name only, and appends the name to the creation order when new |
| DeveloperSummary.SummaryMap | src/components/PricePercent.jsx:26-33 | the accumulator after the reduce with every record reaching it: each name's entry created at 0 and then increased by the price of each of its records |
| DeveloperSummary.SummaryMapSums | src/components/PricePercent.jsx:26-33 | the accumulator after the reduce has one entry per developer name, holding the sum of exactly the records with that name |
| DeveloperSummary.SummaryMapAppend | src/components/PricePercent.jsx:27-31 | one more record: the entry of its name is created with 0 when missing, then its price is added |
| DeveloperSummary.FirstOccurrencesAppend | src/components/PricePercent.jsx:28-30 | one more record appends its name to the creation order exactly when the name is new |
| DeveloperSummary.AccumulatorStep | src/components/PricePercent.jsx:28-31 | one loop step (create with 0 when missing, then add the price) turns the accumulator of the records so far into the accumulator of one more record |
| DeveloperSummary.CreatedStep | src/components/PricePercent.jsx:28-30 | one loop step lists the name when it creates its entry, so the key list stays the creation order |
| DeveloperSummary.Summarize | src/components/PricePercent.jsx:26-33 | the grouping loop leaves one entry per developer name, holding the sum of exactly the records with that name (exact, case-sensitive), and creates the entries in first-occurrence order |
| DeveloperSummary.ReachingNames | src/components/PricePercent.jsx:28-31 | leaving out the records of inherited names removes exactly those names and alters no other sum |
| DeveloperSummary.Reaching | src/components/PricePercent.jsx:28-31 | the records that reach the accumulator, in order: those whose name is not inherited |
| DeveloperSummary.AsWrittenMap | src/components/PricePercent.jsx:26-33 | the accumulator as written: a record whose name is neither own nor inherited creates its entry, an own entry gets the price, an inherited name changes nothing |
| DeveloperSummary.AsWrittenCreated | src/components/PricePercent.jsx:26-33 | the order in which the reduce as written creates entries |
| DeveloperSummary.AsWrittenMapSums | src/components/PricePercent.jsx:26-33 | as written, the accumulator has an entry for exactly the names not inherited, each holding the full sum of that name's records |
| DeveloperSummary.AsWrittenMapReaching | src/components/PricePercent.jsx:26-33 | as written, the accumulator is the corrected accumulator of the records whose name is not inherited |
| DeveloperSummary.FirstOccurrencesReaching | src/components/PricePercent.jsx:28-30 | the creation order of the records that reach the accumulator is the full creation order without the inherited names |
| DeveloperSummary.ReachingAll | src/components/PricePercent.jsx:28-31 | when no developer name is inherited, every record reaches the accumulator |
| DeveloperSummary.AsWrittenCreatedReaching | src/components/PricePercent.jsx:26-33 | as written, entries are created in the first-occurrence order of the records whose name is not inherited |
| DeveloperSummary.AsWrittenAccumulatorStep | src/components/PricePercent.jsx:28-31 | one loop step as written: an own entry gets the price, a name neither own nor inherited gets a new entry, an inherited name leaves the accumulator unchanged |
| DeveloperSummary.AsWrittenCreatedStep | src/components/PricePercent.jsx:28-30 | one loop step as written lists the name exactly when it creates an entry |
| DeveloperSummary.SummarizeAsWritten | src/components/PricePercent.jsx:26-33 | the grouping loop as written, on an accumulator that inherits the given names: it is the corrected grouping of the records whose name is not inherited, so it has an entry for exactly the names not inherited, each with the full sum of that name's records, created in first-occurrence order of those |
| DeveloperSummary.InheritedNameIsLost | src/components/PricePercent.jsx:28-31 | a single record named `constructor` counts in the total but the grouping as written has no entry and no key for it |
| DeveloperSummary.SumPricesConcat | src/components/PricePercent.jsx:26-33 | summing developer sums over two key lists is summing over their concatenation |
| DeveloperSummary.SumPricesLastRecord | src/components/PricePercent.jsx:26-33 | over distinct keys, one more record adds its price once when its name is listed, else nothing |
| DeveloperSummary.SumPricesAbsent | src/components/PricePercent.jsx:26-33 | names that no record carries sum to 0 |
| DeveloperSummary.GroupingConservesTotal | src/components/PricePercent.jsx:20-33 | the developer sums over all developers add up to the grand total |
| DeveloperSummary.SumPricesInsert | src/components/PricePercent.jsx:36 | inserting a key into the visiting order adds its sum once |
| DeveloperSummary.SumPricesSort | src/components/PricePercent.jsx:36 | ordering the keys does not change the sum over them |
| DeveloperSummary.SumPricesSplit | src/components/PricePercent.jsx:36 | the sums over the two key parts add up to the sum over all keys |
| DeveloperSummary.SumPricesOwnKeyOrder | src/components/PricePercent.jsx:36 | visiting the entries in `Object.values` order does not change their sum |
| PriceRows.Percentage | src/components/PricePercent.jsx:39 | finite exactly when the total is non-zero, and then share × total = value × 100; NaN for 0/0, +Infinity for a positive value over 0 |
| PriceRows.ShareBounds | src/components/PricePercent.jsx:39 | a part between 0 and a positive total has a share between 0 and 100 |
| PriceRows.ToRows | src/components/PricePercent.jsx:36-40 | one row per key, in key order, with the key as name, its summed price as value and its share of the total |
| PriceRows.RowNames | src/components/PricePercent.jsx:37 | the i-th name is the i-th row's name |
| PriceRows.SharesScale | src/components/PricePercent.jsx:39 | the shares of the rows times the total equal their values times 100 |
| PriceRows.SharesArePercentage | src/components/PricePercent.jsx:36-40 | with a non-zero total, the rows' shares add up to the share that the sum of their values is of the total |
| PriceRows.SharesSumTo100 | src/components/PricePercent.jsx:36-40 | when the values add up to a non-zero total, the shares add up to exactly 100 |
| SearchFilter.ToLower | src/components/PricePercent.jsx:46 | lower-casing keeps the length, leaves no upper-case letter, shifts `A`-`Z` by 32 and leaves every other character alone |
| SearchFilter.ToLowerIdempotent | src/components/PricePercent.jsx:46 | lower-casing twice is lower-casing once |
| SearchFilter.IncludesIff | src/components/PricePercent.jsx:46 | `includes` holds exactly when the term occurs at some position of the name |
| SearchFilter.Includes | src/components/PricePercent.jsx:46 | `String.prototype.includes`: whether the term occurs in the name |
| SearchFilter.Matches | src/components/PricePercent.jsx:46 | a row matches when its lower-cased name includes the lower-cased term |
| SearchFilter.Keep | src/components/PricePercent.jsx:45-47 | the `filter`: the matching rows, in order |
| SearchFilter.IncludesLonger | src/components/PricePercent.jsx:46 | a name never includes a longer term |
| SearchFilter.KeptIndices | src/components/PricePercent.jsx:45-47 | the positions the filter keeps: one per kept row, strictly increasing, each pointing at the kept row |
| SearchFilter.KeptIndicesMatch | src/components/PricePercent.jsx:45-47 | a position is kept exactly when the row there matches |
| SearchFilter.EmptyTermIndices | src/components/PricePercent.jsx:45-47 | the empty term keeps every position |
| SearchFilter.FilterRows | src/components/PricePercent.jsx:44-48 | the full list for an empty term; otherwise a row is kept exactly when it is listed and matches |
| SearchFilter.KeepMembers | src/components/PricePercent.jsx:45-47 | a row is kept exactly when it is listed and matches |
| SearchFilter.KeepEmptyTerm | src/components/PricePercent.jsx:45-47 | every name includes the empty term, so filtering by it keeps every row |
| SearchFilter.FilterIsKeep | src/components/PricePercent.jsx:44-48 | the `if (searchTerm)` guard does not change the result |
| SearchFilter.FilterIsSubsequence | src/components/PricePercent.jsx:44-48 | the filtered rows are the matching rows, unchanged, in their original relative order |
| SearchFilter.KeepAppend | src/components/PricePercent.jsx:45-47 | one more row is kept exactly when it matches |
| SearchFilter.KeepIdempotent | src/components/PricePercent.jsx:45-47 | filtering a filtered list again changes nothing |
| SearchFilter.FilterIdempotent | src/components/PricePercent.jsx:44-48 | filtering twice with the same term is filtering once |
| SearchFilter.KeepSameLowerTerm | src/components/PricePercent.jsx:45-47 | terms equal after lower-casing keep the same rows |
| SearchFilter.FilterIgnoresTermCase | src/components/PricePercent.jsx:44-48 | terms equal after lower-casing filter alike |
| SearchFilter.AlphaContainsA | src/components/PricePercent.jsx:46 | the row Alpha matches the term `a` |
| SearchFilter.BetaContainsA | src/components/PricePercent.jsx:46 | the row Beta matches the term `a` |
| SearchFilter.TermAKeepsAlphaAndBeta | src/components/PricePercent.jsx:44-48 | the term `a` keeps both Alpha and Beta |
| ChartColors.ColorIndex | src/components/PricePercent.jsx:113 | the palette position is below 8, and equal to the index for the first eight entries |
| ChartColors.ColorPeriodic | src/components/PricePercent.jsx:113 | the colours repeat every eight entries |
| ChartColors.Colors | src/components/PricePercent.jsx:54 | the eight palette colours, in order |
| ChartColors.ColorAt | src/components/PricePercent.jsx:113 | `COLORS[index % COLORS.length]`, used for slices here and for swatches at line 159: the palette colour of a position |
| ChartColors.PaletteDistinct | src/components/PricePercent.jsx:54 | the eight palette colours are pairwise different |
| ChartColors.SameColorIff | src/components/PricePercent.jsx:113 | two entries get the same colour exactly when their positions agree modulo 8 |
| ChartColors.WindowOfEightDistinct | src/components/PricePercent.jsx:113 | any eight consecutive entries get eight different colours |
| ChartColors.IndexColors | src/components/PricePercent.jsx:112-113 | one palette colour per position, the colour of that position |
| ChartColors.SliceColors | src/components/PricePercent.jsx:112-113 | one fill per chart row, the fill of position k being the colour of k |
| ChartColors.TableSwatchesAsWritten | src/components/PricePercent.jsx:149-159 | one swatch per filtered row, the swatch of position k being the colour of k in the filtered list |
| ChartColors.SwatchDisagreesAfterFilter | src/components/PricePercent.jsx:113-159 | after the term `beta` over Alpha, Beta, the table gives Beta colour 0 while its slice has colour 1, and the two differ |
| ChartColors.AlphaLacksBeta | src/components/PricePercent.jsx:46 | the row Alpha does not match the term `beta` |
| ChartColors.BetaContainsBeta | src/components/PricePercent.jsx:46 | the row Beta matches the term `beta` |
| ChartColors.TableSwatches | src/components/PricePercent.jsx:149-159 | one swatch per filtered row, the swatch of the k-th filtered row being the colour of that row's position in the chart |
| ChartColors.SwatchMatchesSlice | src/components/PricePercent.jsx:113-159 | with distinct chart rows, each table swatch is the colour of the same row's slice |
| ChartColors.EmptyTermSwatchesAgree | src/components/PricePercent.jsx:113-159 | with no filter, the swatches as written and as corrected both equal the slice colours |
| PriceChart.VisitOrderNames | src/components/PricePercent.jsx:26-36 | the accumulator of a list of records is visited once per name of those records and for nothing else |
| PriceChart.VisitOrder | src/components/PricePercent.jsx:36 | the order in which `Object.values` visits the accumulator of a list of records |
| PriceChart.ChartRows | src/components/PricePercent.jsx:36-40 | the rows built from the accumulator of a list of records, in visiting order, each share taken of the given total |
| PriceChart.RowsFor | src/components/PricePercent.jsx:20-40 | the chart rows: the rows of the records that reach the accumulator, shares of the grand total of all records |
| PriceChart.ChartFor | src/components/PricePercent.jsx:12-51 | what the effect computes: the grand total, the chart rows and the filtered rows, or nothing when a year is missing |
| PriceChart.DeriveChart | src/components/PricePercent.jsx:12-51 | the effect body step by step, with the grouping as written, yields exactly the specified total, chart rows and filtered rows, and nothing when a year is missing |
| PriceChart.ChartExistsIff | src/components/PricePercent.jsx:14-17 | there is a chart exactly when both years are present |
| PriceChart.TotalOfBothYears | src/components/PricePercent.jsx:14-22 | the grand total is the 2024 total plus the 2025 total |
| PriceChart.SumValuesRows | src/components/PricePercent.jsx:36-40 | the row values add up to the developer sums over the same keys |
| PriceChart.RowNamesAreVisitOrder | src/components/PricePercent.jsx:36-40 | the chart rows are named in the visiting order of the accumulator |
| PriceChart.ChartNames | src/components/PricePercent.jsx:26-36 | the accumulator is visited once per developer name that is not inherited, and for nothing else |
| PriceChart.RowsConserveTotal | src/components/PricePercent.jsx:20-40 | the chart's values add up to the total of the records that reach the accumulator, and to the grand total when no developer name is inherited |
| PriceChart.RowValues | src/components/PricePercent.jsx:36-40 | each chart row's value is the sum of exactly its developer's prices and its percentage its share of the grand total |
| PriceChart.RowsPerDeveloper | src/components/PricePercent.jsx:26-40 | the row names are distinct and exactly the developer names that are not inherited; each row's value is the sum of exactly that developer's records and its percentage is its share of the grand total |
| PriceChart.ChartRowsDistinct | src/components/PricePercent.jsx:36-40 | no two chart rows are equal |
| PriceChart.ChartSwatchesMatchSlices | src/components/PricePercent.jsx:113-159 | in the chart the component draws, each corrected table swatch has the colour of that row's slice |
| PriceChart.SharesMakeWhole | src/components/PricePercent.jsx:20-40 | with a non-zero total the chart's shares add up to the share of the grand total that reaches the accumulator, and to exactly 100 when no developer name is inherited |
| PriceChart.RowsShares | src/components/PricePercent.jsx:36-40 | with a non-zero total the chart's shares add up to the share its values make of the grand total |
| PriceChart.ReachingKeepsFirstOrder | src/components/PricePercent.jsx:26-33 | the names that reach the accumulator are created in the order of their first records |
| PriceChart.RowsInFirstOccurrenceOrder | src/components/PricePercent.jsx:26-40 | with no array-index name, the rows are the developer names that are not inherited, in the order of each developer's first record |
| PriceChart.NamedKeysInFirstOrder | src/components/PricePercent.jsx:26-36 | the names that are not array indices keep first-occurrence order |
| PriceChart.VisitOrderSplit | src/components/PricePercent.jsx:26-36 | the visiting order splits into the array-index names, ascending, and then the other names in first-occurrence order |
| PriceChart.VisitOrderShape | src/components/PricePercent.jsx:26-36 | the visiting order: array-index names first, ascending, then the others in first-occurrence order |
| PriceChart.RowsInVisitOrder | src/components/PricePercent.jsx:26-40 | the rows: array-index names first, ascending, then the others in first-occurrence order |
| PriceChart.FilteredAreChartRows | src/components/PricePercent.jsx:42-49 | the table shows exactly the matching chart rows, unchanged (percentage still of the grand total), and all of them for an empty term |
| PriceChart.NoRecordsNoRows | src/components/PricePercent.jsx:14-49 | no records: total 0, no rows, nothing divided |
| PriceChart.ConstructorLosesRow | src/components/PricePercent.jsx:20-40 | a single record `constructor` 100 on a plain `{}`: total 100, no chart row, no table row |
| PriceChart.ConstructorRow | src/components/PricePercent.jsx:20-40 | on an accumulator that inherits nothing, that record makes the one row `constructor` with 100 and share 100 |
| PriceChart.ConstructorKeepsRow | src/components/PricePercent.jsx:12-51 | on an accumulator that inherits nothing, that record gives total 100 and the one row in both the chart and the table |
| PriceChart.FirstOfTwo | src/components/PricePercent.jsx:26-33 | two records with different names create the two entries in record order, each with its own price |
| PriceChart.NamesOfTwo | src/components/PricePercent.jsx:26-36 | two records with different non-index names are visited in record order, leaving out the inherited ones, each with its own price |
| PriceChart.TwoNamesTwoRows | src/components/PricePercent.jsx:26-40 | two records with different names, neither an array index nor inherited, make two rows in record order with their own prices |
| PriceChart.EmaarNotInherited | src/components/PricePercent.jsx:28 | a plain object inherits neither `Emaar` nor `emaar` |
| PriceChart.CaseSensitiveGrouping | src/components/PricePercent.jsx:26-40 | `Emaar` and `emaar` make two rows with their own sums |
| PriceChart.ThreeRecordSums | src/components/PricePercent.jsx:20-33 | records A 100, B 200, A 50: total 350, names created in the order A, B, sums 150 and 200 |
| PriceChart.ThreeRecordsReach | src/components/PricePercent.jsx:28-31 | a plain object inherits neither A nor B, so all three records reach the accumulator |
| PriceChart.ThreeRecordVisit | src/components/PricePercent.jsx:26-36 | for those records the accumulator is visited in the order A, B |
| PriceChart.ThreeRecordMap | src/components/PricePercent.jsx:26-33 | for those records the accumulator holds A with 150 and B with 200 |
| PriceChart.ThreeRecordRows | src/components/PricePercent.jsx:36-40 | for those records the two rows are A with 150 and B with 200, each with its share of 350 |
| PriceChart.ThreeRecordScenario | src/components/PricePercent.jsx:20-40 | records A 100, B 200, A 50 give total 350 and rows A 150, B 200 with shares 150/350 and 200/350 of 100 |

## Left out

- React state and scheduling: `useState`, the setter calls and the re-run of the effect when the term changes are not modelled. `DeriveChart` returns what the effect hands to the three setters.
- Markup, styling, the search input, the tooltip and the recharts and lucide components are not modelled; only the palette rule of the cells and swatches is.
- Number formatting with `Intl.NumberFormat` is not modelled.
- PriceRows.Percentage: the share is exact; floating-point division and the rounding and string conversion of `toFixed(2)` are not modelled.
- Prices are unbounded integers, not JavaScript doubles.
- SearchFilter.ToLower: lower-casing covers ASCII letters only, not full Unicode case mapping.
- MonthRecords.AllMonths: the mock data module `src/mockData/mockdata` is not part of this model. The data set is a parameter, and each year's months are taken in their `Object.values` order as given.
- DeveloperSummary.SummarizeAsWritten: for an inherited name the `+=` writes a `propertyPrice` property onto the inherited value, outside the accumulator. For `constructor` that value is the `Object` function, whose `propertyPrice` becomes NaN; for `__proto__` it is `Object.prototype` itself. That side effect is not modelled, only that the record is lost to the grouping.
- Records whose developer name is missing or not a string are not modelled; names are strings.

## Findings

| source | as written | input that shows it | evidently intended | confidence | as-written member | corrected member |
|---|---|---|---|---|---|---|
| src/components/PricePercent.jsx:28-31 | `!acc[developerName]` on a plain `{}` also sees the properties inherited from `Object.prototype`, so for such a name no entry is created and the `+=` goes to the `propertyPrice` of the inherited value | one record `{developerName: "constructor", propertyPrice: 100}`: total 100, no row | every developer name gets its own entry, for example with an `Object.create(null)` accumulator or an own-property test | not executed | DeveloperSummary.SummarizeAsWritten, DeveloperSummary.InheritedNameIsLost, PriceChart.ConstructorLosesRow | DeveloperSummary.Summarize, PriceChart.ConstructorKeepsRow |
| src/components/PricePercent.jsx:113-159 | the table colours a swatch by the row's position in the filtered list, the pie by the row's position in the full list | rows Alpha, Beta with term `beta`: Beta's swatch is colour 0, its slice colour 1 | a row's swatch matches its slice | not executed | ChartColors.TableSwatchesAsWritten, ChartColors.SwatchDisagreesAfterFilter | ChartColors.TableSwatches, ChartColors.SwatchMatchesSlice |
