# Inventory projection grid — Dafny model

This project models the computational core of an inventory-projection grid
(a React/TypeScript application). Each forecast record gives one product
(a `Reference`) at one stocking centre (`CenterCode`) on one forecast date
(`VisibleForecastedDate`). It carries a net flow, three zone widths and an
editable make-to-order quantity. The core does the following:

- classifies `NetFlow + MakeToOrder` against the red, yellow and green band
  widths into one of five zones (`red`, `yellow`, `green`, `black`, `blue`);
- looks up background colours, text colours and display names per zone,
  through an injected colour service;
- counts the records of a selected date per zone and writes percentage text;
- turns the flat records into grid rows keyed by `CenterCode-Reference`, and
  lists the distinct dates sorted by time;
- loads and validates raw JSON entries, assigning ids;
- computes dataset metrics behind a small bounded cache;
- applies the edit clamp, the replace-by-id update, the column-selection
  state and the application view flags.

Numbers are exact `real`s. Strings are `seq<char>`. Date parsing is a
parameter: `timeOf: string -> int` is used for sorting, and
`parse: string -> Option<int>` for the metrics, where `None` stands for a
NaN time. The injected strategy, palette, text-colour service and metrics
calculator become function-valued fields of datatypes. Dafny has no
interfaces here, so any implementation of these can be passed in.

Where the code keeps state (`selectedColumn`, the metrics `cache`, the `data`
state, `selectedDate`), the model is a class whose methods update that
field. `calculateColorStats` and `transformToGridRows` are loops in the
source, so they are methods with loop invariants. Each is proved equal to a
specification function, and the lemmas about that function hold the
properties.

Two details of the code shape the model. First, the red test has the lower
bound `total >= 1` (src/utils/colorUtils.ts:29 and
src/services/ColorService.ts:56), so negative totals and totals strictly
between 0 and 1 are never red; they fall through to yellow, green or blue.
Second, the edit clamp sits in the cell renderer
(src/hooks/useCellRenderer.ts:91-92), and `updateMakeToOrder` stores any
value as given.

Modules, one per source file: `ColorUtils`, `ColorServices`, `ColorPalette`,
`Statistics`, `SummaryPanelOptimized`, `SummaryPanelHook`, `GridData`,
`ProjectionGridHook`, `DataService`, `Metrics`, `ProjectionDataHook`,
`CellRendererHook`, `AppHook`. Shared modules: `ProductModel` (the record and
the zone type of src/interfaces/ProductData.ts), `Wrappers` (Option and
Result), `Decimal` (decimal text, `toFixed(1)`) and `SeqUtil`
(first-occurrence deduplication as done by a JavaScript `Set`/`Map`).

## Model

| member | source | states |
|---|---|---|
| ColorUtils.CalculateCellColor | src/utils/colorUtils.ts:12-34 | the result is black exactly when netFlow + makeToOrder is 0, whatever the widths |
| ColorUtils.RedIff | src/utils/colorUtils.ts:29 | red exactly when the total is non-zero and 1 <= total <= redZone; never red when total < 1 or redZone < 1 |
| ColorUtils.YellowIff | src/utils/colorUtils.ts:25-30 | yellow exactly when the total is non-zero, fails the red test and is <= redZone + yellowZone |
| ColorUtils.GreenIff | src/utils/colorUtils.ts:25-31 | green exactly when the total is non-zero, fails the red test, exceeds the yellow limit and is <= the green limit |
| ColorUtils.BlueIff | src/utils/colorUtils.ts:29-33 | blue exactly when the total is non-zero, fails the red test and exceeds both the yellow and the green limit |
| ColorUtils.BelowOneIsYellow | src/utils/colorUtils.ts:25-30 | a non-zero total below 1 (negative included) that does not exceed the yellow limit is yellow, not red |
| ColorUtils.BoundaryExamples | src/utils/colorUtils.ts:19-33 | concrete cases with widths (10,10,10): 0 black, -5 and 0.5 yellow, 1 and 10 red, 11 and 20 yellow, 30 green, 31 blue |
| ColorUtils.DependsOnlyOnTotal | src/utils/colorUtils.ts:19 | two inputs with the same netFlow + makeToOrder get the same zone |
| ColorUtils.BandsAreMonotone | src/utils/colorUtils.ts:29-33 | with non-negative widths, raising a total of at least 1 never moves it down the order red < yellow < green < blue, and it is never black |
| ColorUtils.TablesAreInjective | src/utils/colorUtils.ts:40-72 | colorMap, colorNames and the text-colour table each give the five zones pairwise distinct entries |
| ColorServices.InventoryZoneCalculateColor | src/services/ColorService.ts:39-61 | the strategy returns black exactly when the total is 0, and red only when 1 <= total <= redZone |
| ColorServices.StrategyAgreesWithColorUtils | src/services/ColorService.ts:39-61 | the strategy and colorUtils.calculateCellColor agree on every input |
| ColorServices.ServiceDelegates | src/services/ColorService.ts:86-121 | calculateCellColor, getBackgroundColor, getTextColor and getColorName return the injected collaborator's answer for the same arguments, in the same order |
| ColorPalette.CreateDefaultColorService | src/services/ColorPalette.ts:68-75 | the default service answers with the modern palette, its names and the contrast text colours for every zone |
| ColorPalette.DefaultServiceClassifies | src/services/ColorPalette.ts:68-75 | the default service classifies exactly as InventoryZoneColorStrategy and as colorUtils |
| ColorPalette.TablesMatchColorUtils | src/services/ColorPalette.ts:18-57 | the palette, name and text-colour tables equal colorMap, colorNames and getTextColorForBackground entry by entry |
| ColorPalette.TablesAreInjective | src/services/ColorPalette.ts:18-57 | the five background colours, the five names and the five text colours are each pairwise distinct |
| Statistics.FilterByDate | src/services/StatisticsService.ts:54 | keeps exactly the records whose date equals the selected date, never more records than given |
| Statistics.Share | src/services/StatisticsService.ts:72 | count/total*100 is non-negative and at most 100 when count <= total |
| Statistics.PercentTenthsIsToFixed | src/services/StatisticsService.ts:72 | the integer rounding used for the text is exactly toFixed(1)'s rounding of the exact share |
| Statistics.ColorStatsOf | src/services/StatisticsService.ts:46-76 | the result always holds all five zones |
| Statistics.ZoneCountsSum | src/services/StatisticsService.ts:57-66 | every record is counted in exactly one zone: the five zone counts add up to the number of records |
| Statistics.CountsSumToTotal | src/services/StatisticsService.ts:57-69 | the five counts of the result add up to its total |
| Statistics.TotalIsDatedCount | src/services/StatisticsService.ts:54-69 | the total is the number of records whose date is exactly the selected date |
| Statistics.ColorStatsAppend | src/services/StatisticsService.ts:54-66 | a record with another date changes nothing; one with the selected date adds one to the total and to its own zone's count only |
| Statistics.ZeroTotalKeepsZeroPercent | src/services/StatisticsService.ts:46-74 | with no record on the date every zone stays at count 0 and "0%" |
| Statistics.PercentagesWhenCounted | src/services/StatisticsService.ts:70-73 | with records present each percentage is toFixed(1) of count/total*100 plus "%"; an empty zone reads "0.0%" and a zone holding every record "100.0%" |
| Statistics.FillPercentages | src/services/StatisticsService.ts:70-74 | the percentage pass sets every zone's text to its share of the total and keeps every count |
| Statistics.CalculateColorStats | src/services/StatisticsService.ts:42-77 | the counting loop and the percentage pass return exactly ColorStatsOf for the service's colour service |
| Statistics.CreateDefaultStatisticsService | src/services/StatisticsService.ts:109-111 | the factory's service works over the colour service it is given |
| Statistics.CalculateGeneralStats | src/services/StatisticsService.ts:82-103 | empty input gives all zeros; otherwise totalProducts is the record count and each average is a whole number of hundredths within half a hundredth of the mean |
| Decimal.TenthsOf | src/services/StatisticsService.ts:72 | toFixed(1) rounds to a number of tenths within half a tenth of the value |
| Decimal.Fixed1RoundTrip | src/services/StatisticsService.ts:72 | the one-decimal text is integer digits, a dot and digits that read back as the rounded number of tenths |
| SummaryPanelOptimized.PanelCalculateColorStats | src/components/SummaryPanel/SummaryPanelOptimized.tsx:37-69 | the panel's own counting loop returns the same counts, percentages and total as the statistics service with the default colour service |
| SummaryPanelOptimized.ColorStatChip | src/components/SummaryPanel/SummaryPanelOptimized.tsx:74-118 | a chip shows its zone's colorMap background, colorNames name, count and percentage |
| SummaryPanelOptimized.PanelChips | src/components/SummaryPanel/SummaryPanelOptimized.tsx:162-170 | every chip has a positive count and a zone from the list, and there are no more chips than zones |
| SummaryPanelOptimized.RenderColorChips | src/components/SummaryPanel/SummaryPanelOptimized.tsx:159-171 | there are no chips exactly when there are no statistics |
| SummaryPanelOptimized.SummaryPanel | src/components/SummaryPanel/SummaryPanelOptimized.tsx:123-226 | an undefined or empty date gives the empty state; otherwise the panel shows the formatted date, the chips and the total of the default-service statistics |
| SummaryPanelOptimized.PanelChipsMatchHook | src/components/SummaryPanel/SummaryPanelOptimized.tsx:162-170 | the panel's chips are the hook's chips under the default service: same zones, order, figures and colours |
| SummaryPanelOptimized.PanelChipsSelect | src/components/SummaryPanel/SummaryPanelOptimized.tsx:162-170 | over a rank-ordered zone list, a zone has a chip exactly when it is listed with a positive count, and chips keep rank order |
| SummaryPanelOptimized.PanelChipsAreZonesWithRecords | src/components/SummaryPanel/SummaryPanelOptimized.tsx:162-170 | chips are shown exactly for the zones with count > 0, in the order red, yellow, green, black, blue |
| SummaryPanelOptimized.PanelChipsKeepCountSum | src/components/SummaryPanel/SummaryPanelOptimized.tsx:162-163 | dropping the empty zones keeps the sum of the five counts |
| SummaryPanelOptimized.ResultPanelCountsSumToTotal | src/components/SummaryPanel/SummaryPanelOptimized.tsx:163-222 | the displayed chip counts add up to the displayed total |
| SummaryPanelHook.UseSummaryPanel | src/hooks/useSummaryPanel.ts:50-131 | hasData holds exactly when the date is present and non-empty; without one the total is 0, the date text '' and there are no chips; with one the total is the number of records on that date and the date text is the formatter's |
| SummaryPanelHook.ResolvedColorService | src/hooks/useSummaryPanel.ts:55-60 | the configured colour service when given, else the default one |
| SummaryPanelHook.ResolvedStatisticsService | src/hooks/useSummaryPanel.ts:55-60 | the configured statistics service when given, else a default one over the resolved colour service |
| SummaryPanelHook.ColorStatsData | src/hooks/useSummaryPanel.ts:76-79 | no statistics exactly when the date is undefined or empty; otherwise the statistics of that date |
| SummaryPanelHook.ChipsOver | src/hooks/useSummaryPanel.ts:85-92 | each chip is a listed zone with a positive count, carrying its stats and the colour service's background and name, in rank order |
| SummaryPanelHook.ChipsOverCovers | src/hooks/useSummaryPanel.ts:85-92 | every listed zone with a positive count has a chip |
| SummaryPanelHook.ColorChipsData | src/hooks/useSummaryPanel.ts:82-93 | no statistics give no chips |
| SummaryPanelHook.TotalProducts | src/hooks/useSummaryPanel.ts:97 | the statistics total, or 0 when there are no statistics |
| SummaryPanelHook.FormattedDate | src/hooks/useSummaryPanel.ts:98 | '' without a date, the formatted date otherwise |
| SummaryPanelHook.ChipsKeepCountSum | src/hooks/useSummaryPanel.ts:86 | the chips' counts add up to the counts of all listed zones |
| SummaryPanelHook.ChipsAreZonesWithRecords | src/hooks/useSummaryPanel.ts:82-93 | the chips are exactly the zones with count > 0, in key order, each with the service's background and name; none without statistics |
| SummaryPanelHook.ChipCountsSumToTotal | src/hooks/useSummaryPanel.ts:96-98 | the chip counts add up to totalProducts; hasData holds exactly when a date is selected; without one, totalProducts is 0 and formattedDate is '' |
| SeqUtil.Dedupe | src/services/GridDataService.ts:60 | the insertion-ordered Set: duplicate-free, the same elements, no longer than the input |
| SeqUtil.DedupeFollowsFirstOccurrence | src/services/GridDataService.ts:33-53 | deduplicated elements appear in order of their first occurrence |
| GridData.GenerateProductKey | src/services/GridDataService.ts:67-69 | the key is the centre code, a dash, then the reference |
| GridData.RowAfter | src/services/GridDataService.ts:35-51 | a key has a row exactly when some record has that key |
| GridData.GridRowsOf | src/services/GridDataService.ts:53 | one row per key in insertion order |
| GridData.TransformToGridRows | src/services/GridDataService.ts:31-54 | the map-filling loop returns exactly GridRowsOf: the rows of the distinct keys in first-occurrence order |
| GridData.RowsFollowFirstOccurrence | src/services/GridDataService.ts:33-53 | rows are ordered by the first record of their key |
| GridData.RowCountIsKeyCount | src/services/GridDataService.ts:36-44 | the number of rows is the number of distinct product keys |
| GridData.KeyCountAtMostPairCount | src/services/GridDataService.ts:36-44 | there are no more distinct keys than distinct (CenterCode, Reference) pairs |
| GridData.CollidingPairsShareRow | src/services/GridDataService.ts:36-44 | ("A-B","C") and ("A","B-C") are different pairs with the same key and end up in one row |
| GridData.KeysInjectiveWithoutDash | src/services/GridDataService.ts:68 | when no centre code holds a dash, equal keys mean equal centre and reference |
| GridData.ReservedDateOverwritesId | src/services/GridDataService.ts:47 | a record dated "id" overwrites its row's id field with its cell |
| GridData.RowCarriesKeyAndFirstRecord | src/services/GridDataService.ts:38-44 | without reserved dates a row's id is its key, and its CenterCode and Reference come from the first record with that key |
| GridData.LastRecordWins | src/services/GridDataService.ts:46-50 | a row's cell at a date holds {MakeToOrder, data} of the last record with that key and date |
| GridData.EveryRecordIsReachable | src/services/GridDataService.ts:35-51 | every record's key has a row with a cell at the record's date, holding a record of that key and date |
| GridData.DistinctDates | src/services/GridDataService.ts:60 | duplicate-free, and holding exactly the dates present in the input |
| GridData.SortByTimeSorts | src/services/GridDataService.ts:61 | the sorted list is non-decreasing by time and a permutation of the input |
| GridData.SortIsStable | src/services/GridDataService.ts:61 | the sort keeps the input order among strings of equal time |
| GridData.UniqueDatesSpec | src/services/GridDataService.ts:59-62 | getUniqueDates is duplicate-free, holds exactly the input's dates, is ordered by time, and keeps first-occurrence order among equal times |
| GridData.UniqueDatesAscend | src/services/GridDataService.ts:61 | when no two different input dates share a time, the unique dates strictly ascend |
| ProjectionGridHook.ColumnsFor | src/hooks/useProjectionGrid.ts:117-146 | CenterCode and Reference columns, then one column per unique date in order, with the date as its field; length 2 + number of dates |
| ProjectionGridHook.GetCellRenderData | src/hooks/useProjectionGrid.ts:97-107 | render data only for a value that is a date cell, carrying its record and the configured colour service |
| ProjectionGridHook.ProjectionGrid.constructor | src/hooks/useProjectionGrid.ts:61-86 | rows and unique dates derived from the data, no column selected |
| ProjectionGridHook.ProjectionGrid.GetHeaderRenderData | src/hooks/useProjectionGrid.ts:110-114 | isSelected holds exactly when the selected column is this field |
| ProjectionGridHook.ProjectionGrid.HandleColumnHeaderClick | src/hooks/useProjectionGrid.ts:89-94 | a unique-date field becomes the selected column and is reported once to onColumnSelect; any other field changes nothing and reports nothing |
| ProjectionGridHook.DateColumnsAreClickable | src/hooks/useProjectionGrid.ts:137-143 | every date column's field is a unique date, so clicking its header selects it |
| ProjectionGridHook.FixedColumnsAreNotSelectable | src/hooks/useProjectionGrid.ts:90 | without reserved dates, "CenterCode" and "Reference" are not unique dates, so their clicks are ignored |
| ProjectionGridHook.RowCellsRender | src/hooks/useProjectionGrid.ts:97-107 | every record's cell in its row yields render data holding a record of that date |
| DataService.OrFallbackText | src/services/DataService.ts:61-62 | a falsy field gives the fallback; a non-empty string is kept |
| DataService.GenerateProductId | src/services/DataService.ts:60-64 | the text after the id's last dash is the index, in decimal |
| DataService.IdsOfDistinctIndicesDiffer | src/services/DataService.ts:60-64 | ids built at different indices differ |
| DataService.OrEmpty | src/services/DataService.ts:72-74 | a string field is kept as is, a falsy one becomes '', a truthy non-string stays a non-string |
| DataService.CoerceNumber | src/services/DataService.ts:75-79 | Number(x) or 0 is never NaN: a NaN value becomes 0, any number is kept |
| DataService.TransformToProductData | src/services/DataService.ts:69-81 | the id ends in the index; string fields are kept; each numeric field is the entry's number, or 0 when missing or NaN |
| DataService.ValidIffNonEmptyStrings | src/services/DataService.ts:86-97 | a transformed entry is valid exactly when CenterCode, Reference and date were non-empty strings; numeric fields, negative or missing, play no part |
| DataService.Objects | src/services/DataService.ts:45-47 | keeps exactly the object entries, never more than given |
| DataService.Transformed | src/services/DataService.ts:48 | each object is transformed with its position among the objects |
| DataService.KeepValid | src/services/DataService.ts:49 | no more records out than candidates in |
| DataService.KeepValidIsValidIndices | src/services/DataService.ts:49 | the kept records are the valid candidates, in their original order |
| DataService.ValidateData | src/services/DataService.ts:42-50 | the output is no longer than the input |
| DataService.ValidateDataKeepsOrder | src/services/DataService.ts:42-50 | the i-th output record is the transform of an object at ascending positions, whose index is the number after its id's last dash |
| DataService.OutputIdsAreDistinct | src/services/DataService.ts:42-64 | no two output records share an id |
| DataService.KeptIffValid | src/services/DataService.ts:86-97 | an object is kept exactly when its transform is valid |
| DataService.NonObjectsAreNotNumbered | src/services/DataService.ts:45-48 | a non-object before the first object does not use up an index: that object gets id "C1-R1-0" |
| DataService.LoadData | src/services/DataService.ts:29-40 | a missing or non-array Datos fails with 'Failed to load data'; otherwise the validated records |
| Metrics.ParsedTimes | src/services/MetricsService.ts:42-44 | exactly the times that parse, no more than the records |
| Metrics.MinOf | src/services/MetricsService.ts:47 | the least element of a non-empty list |
| Metrics.MaxOf | src/services/MetricsService.ts:48 | the greatest element of a non-empty list |
| Metrics.CalculateMetrics | src/services/MetricsService.ts:29-57 | empty input gives (0, 0, 0, null); totalProducts is always the record count |
| Metrics.UniqueCountsAreBounded | src/services/MetricsService.ts:39-54 | uniqueCenters and uniqueReferences are the numbers of distinct values, each at most totalProducts |
| Metrics.DateRangeIsMinAndMax | src/services/MetricsService.ts:42-49 | dateRange is null exactly when no date parses; otherwise start <= end are the least and greatest parsed times |
| Metrics.SharedKeyMeansSameLength | src/services/MetricsService.ts:103-105 | inputs sharing a cache key have the same length |
| Metrics.SameIdsShareKey | src/services/MetricsService.ts:103-105 | inputs with the same id sequence share a cache key, whatever their other fields |
| Metrics.CommasInIdsCollide | src/services/MetricsService.ts:103-105 | ids holding commas let two different id sequences share a key |
| Metrics.MetricsService.constructor | src/services/MetricsService.ts:64-70 | starts with an empty cache |
| Metrics.MetricsService.GetMetrics | src/services/MetricsService.ts:75-91 | a hit returns the stored value and leaves the cache; a miss returns the calculator's value and stores it, unless that reaches 11 entries, which empties the cache; the cache never exceeds 10 entries |
| Metrics.MetricsService.ClearCache | src/services/MetricsService.ts:96-98 | the cache is empty afterwards |
| ProjectionDataHook.WithMakeToOrder | src/hooks/useProjectionData.ts:23-25 | the map keeps the length of the data |
| ProjectionDataHook.UpdateTouchesOnlyTheId | src/hooks/useProjectionData.ts:24 | records with the id get exactly the new value, negative or not, and keep all other fields; other records are untouched |
| ProjectionDataHook.UnknownIdLeavesDataUnchanged | src/hooks/useProjectionData.ts:24 | an id no record has leaves the data equal to before |
| ProjectionDataHook.UpdateIsIdempotent | src/hooks/useProjectionData.ts:22-26 | updating twice with the same id and value equals updating once |
| ProjectionDataHook.LaterUpdateWins | src/hooks/useProjectionData.ts:22-26 | of two updates of the same id, the later value is what remains |
| ProjectionDataHook.ProjectionData.constructor | src/hooks/useProjectionData.ts:19-20 | the state starts as the sample data |
| ProjectionDataHook.ProjectionData.UpdateMakeToOrder | src/hooks/useProjectionData.ts:22-26 | the new data is the replace-by-id map of the old, without clamping |
| CellRendererHook.ClampEditValue | src/hooks/useCellRenderer.ts:91-92 | the result is never negative; NaN and negative inputs become 0, non-negative inputs pass unchanged |
| CellRendererHook.ClampIsIdempotent | src/hooks/useCellRenderer.ts:92 | clamping a clamped value changes nothing |
| CellRendererHook.HandleValueChange | src/hooks/useCellRenderer.ts:90-94 | the row's id is sent with a non-negative value, the input itself when it is non-negative |
| CellRendererHook.ResolvedColorService | src/hooks/useCellRenderer.ts:46 | the configured colour service when given, else the default one |
| CellRendererHook.UseCellRenderer | src/hooks/useCellRenderer.ts:49-87 | cellColor is the service's classification of the row, and the cell uses that zone's background and text colours |
| CellRendererHook.DefaultCellUsesColorUtils | src/hooks/useCellRenderer.ts:46-57 | with the default service a cell is classified and coloured exactly as colorUtils does |
| AppHook.ShowFlagsOf | src/hooks/useApp.ts:125-127 | shouldShowError iff error is a non-empty string; shouldShowLoading iff loading without error; shouldShowContent iff neither |
| AppHook.ExactlyOneViewIsShown | src/hooks/useApp.ts:125-127 | for any error and loading state exactly one of the three flags holds |
| AppHook.App.constructor | src/hooks/useApp.ts:61-73 | no date selected; the statistics service is built over the same default colour service the app exposes |
| AppHook.App.HandleColumnSelect | src/hooks/useApp.ts:81-83 | the selected date becomes the given date and the data is kept |
| AppHook.App.HandleCellEdit | src/hooks/useApp.ts:76-78 | the id and value go unchanged to updateMakeToOrder; the selected date is kept |
| AppHook.RendererEditsAreNonNegative | src/hooks/useApp.ts:76-78 | an edit that comes through the cell renderer stores a non-negative MakeToOrder in the edited row |

## Left out

- Rendering: JSX, MUI styling, style objects, theme objects and the
  presentational components are not modelled. Only the values they are
  given are modelled.
- Date parsing and formatting: `new Date(s).getTime()` is the parameter
  `timeOf` (sorting) or `parse` (metrics). `toLocaleDateString`, including
  `DateFormatter`, is a `string -> string` parameter. NaN dates in the sort
  comparator are not modelled.
- Floating point: numbers are exact reals. IEEE rounding of sums, NaN and
  Infinity in the classifier, and binary-to-decimal effects in `toFixed(1)`
  and `Math.round` are not modelled.
- JavaScript coercion: `Number(x)` and `parseFloat` are not modelled. Their
  results are inputs, given as `Option<real>` with `None` for NaN. The raw
  text fields are inputs of type `RawField`: falsy, a string, or a truthy
  non-string with its template-literal text.
- React machinery: `useState`, `useMemo`, `useCallback`, `React.memo`,
  the Promise of `loadData` and `console.error` are not modelled. Hook state
  is class fields, and callbacks are results or forwarded calls.
- The `metrics`, `isLoading` and `error` values that `useApp` reads from
  `useProjectionData` are not modelled, because that hook does not return
  them. The view flags are a function of an explicit `error` and
  `isLoading`.
- ProjectionGridHook.CellRenderData and HeaderRenderData: the `onValueChange`
  and `onClick` callbacks are not stored. They are the hook's own arguments
  and handler, passed through unchanged.
- Metrics.MetricsService.GetMetrics: does not state that the calculator is
  not called on a hit. The calculator is a pure function here, so a call
  cannot be observed.
- Other implementations of `IStatisticsService` (the `statisticsService`
  option of `useSummaryPanel`) and of the grid transformer injected into
  `useProjectionGrid` are not modelled: the model always uses the
  repository's own statistics algorithm over the resolved colour service, and
  the GridData functions. The chip order red, yellow, green, black, blue
  stated by SummaryPanelHook.ChipsAreZonesWithRecords relies on that concrete
  service building its table in that key order, which `Object.entries`
  follows; another implementation could order its keys differently.
- Aliasing of row objects: a row of `transformToGridRows` is an immutable
  map value, not a shared mutable object. Later changes through a shared
  reference are out of scope.
