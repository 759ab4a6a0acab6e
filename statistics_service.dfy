/** Per-date colour statistics and general statistics
    (src/services/StatisticsService.ts). */
module Statistics {
  import opened ProductModel
  import opened ColorServices
  import Decimal

  /** `ColorStats`: how many records fall in a zone, and that share as text. */
  datatype ColorStat = ColorStat(count: nat, percentage: string)

  /** The value `calculateColorStats` returns. */
  datatype ColorStatsResult = ColorStatsResult(stats: map<ColorZone, ColorStat>, total: nat)

  /** `StatisticsService`: holds the colour service it classifies with. */
  datatype StatisticsService = StatisticsService(colorService: ColorService)

  /** `StatisticsServiceFactory.createDefaultStatisticsService`. */
  function CreateDefaultStatisticsService(cs: ColorService): (ss: StatisticsService)
    ensures ss.colorService == cs
  {
    StatisticsService(cs)
  }

  /** The statistics record before any record is counted. */
  const InitialStats: map<ColorZone, ColorStat> :=
    map[Red := ColorStat(0, "0%"), Yellow := ColorStat(0, "0%"), Green := ColorStat(0, "0%"),
        Black := ColorStat(0, "0%"), Blue := ColorStat(0, "0%")]

  /** `data.filter(item => item.VisibleForecastedDate === selectedDate)`. */
  function FilterByDate(data: seq<ProductData>, selectedDate: string): (r: seq<ProductData>)
    ensures |r| <= |data|
    ensures forall x :: x in r <==> x in data && x.VisibleForecastedDate == selectedDate
    decreases |data|
  {
    if data == [] then []
    else
      var kept := FilterByDate(data[..|data| - 1], selectedDate);
      var x := data[|data| - 1];
      assert forall y :: y in data <==> y in data[..|data| - 1] || y == x;
      if x.VisibleForecastedDate == selectedDate then kept + [x] else kept
  }

  /** The zone the colour service assigns to a record. */
  function ZoneOf(cs: ColorService, x: ProductData): ColorZone
  {
    CalculateCellColor(cs, x.NetFlow, x.MakeToOrder, x.RedZone, x.YellowZone, x.GreenZone)
  }

  /** How many of the records the colour service classifies into `z`. */
  function ZoneCount(records: seq<ProductData>, cs: ColorService, z: ColorZone): (n: nat)
    ensures n <= |records|
    decreases |records|
  {
    if records == [] then 0
    else ZoneCount(records[..|records| - 1], cs, z) + (if ZoneOf(cs, records[|records| - 1]) == z then 1 else 0)
  }

  /** `(count / total) * 100` on exact reals. */
  function Share(count: nat, total: nat): (x: real)
    requires total > 0
    ensures 0.0 <= x
    ensures count <= total ==> x <= 100.0
  {
    var q := count as real / total as real;
    assert q * total as real == count as real;
    q * 100.0
  }

  /** The tenths `((count / total) * 100).toFixed(1)` rounds to, computed on
      integers: floor(1000 * count / total + 1/2). */
  function PercentTenths(count: nat, total: nat): nat
    requires total > 0
  {
    (2000 * count + total) / (2 * total)
  }

  /** The integer rounding is exactly `toFixed(1)`'s rounding of the share. */
  lemma PercentTenthsIsToFixed(count: nat, total: nat)
    requires total > 0
    ensures PercentTenths(count, total) == Decimal.TenthsOf(Share(count, total))
  {
    var c, t := count as real, total as real;
    var q := c / t;
    assert q * t == c;
    var y := q * 100.0 * 10.0 + 0.5;
    assert y * (2.0 * t) == 2000.0 * (q * t) + t;
    assert y * (2.0 * t) == (2000 * count + total) as real;
    assert y == (2000 * count + total) as real / (2 * total) as real;
    Decimal.DivIsFloor(2000 * count + total, 2 * total);
  }

  /** `${((count / total) * 100).toFixed(1)}%`. */
  function PercentText(count: nat, total: nat): string
    requires total > 0
  {
    Decimal.TenthsText(PercentTenths(count, total)) + "%"
  }

  /** The entry of one zone once counting and the percentage pass are done. */
  function StatFor(filtered: seq<ProductData>, cs: ColorService, z: ColorZone): ColorStat
  {
    var count := ZoneCount(filtered, cs, z);
    ColorStat(count, if |filtered| == 0 then "0%" else PercentText(count, |filtered|))
  }

  /** The five entries for the records of one date. */
  function StatsTable(filtered: seq<ProductData>, cs: ColorService): map<ColorZone, ColorStat>
  {
    map[Red := StatFor(filtered, cs, Red), Yellow := StatFor(filtered, cs, Yellow),
        Green := StatFor(filtered, cs, Green), Black := StatFor(filtered, cs, Black),
        Blue := StatFor(filtered, cs, Blue)]
  }

  /** Looking a zone up in the table gives that zone's entry. */
  lemma StatsTableAt(filtered: seq<ProductData>, cs: ColorService, z: ColorZone)
    ensures z in StatsTable(filtered, cs) && StatsTable(filtered, cs)[z] == StatFor(filtered, cs, z)
  {
    match z
    case Red =>
    case Yellow =>
    case Green =>
    case Black =>
    case Blue =>
  }

  lemma TableFromEntries(stats: map<ColorZone, ColorStat>, filtered: seq<ProductData>, cs: ColorService)
    requires stats.Keys == AllZones
    requires forall z :: z in AllZones ==> stats[z] == StatFor(filtered, cs, z)
    ensures stats == StatsTable(filtered, cs)
  {
    var table := StatsTable(filtered, cs);
    assert stats[Red] == table[Red] && stats[Yellow] == table[Yellow] && stats[Green] == table[Green];
    assert stats[Black] == table[Black] && stats[Blue] == table[Blue];
  }

  /** What `calculateColorStats(data, selectedDate)` returns. */
  function ColorStatsOf(data: seq<ProductData>, selectedDate: string, cs: ColorService): (r: ColorStatsResult)
    ensures r.stats.Keys == AllZones
  {
    var filtered := FilterByDate(data, selectedDate);
    ColorStatsResult(StatsTable(filtered, cs), |filtered|)
  }

  /** Sum of the five counts of a statistics record. */
  function CountSum(stats: map<ColorZone, ColorStat>): nat
    requires stats.Keys == AllZones
  {
    stats[Red].count + stats[Yellow].count + stats[Green].count + stats[Black].count + stats[Blue].count
  }

  /** Every record is counted in exactly one zone. */
  lemma {:induction false} ZoneCountsSum(records: seq<ProductData>, cs: ColorService)
    ensures ZoneCount(records, cs, Red) + ZoneCount(records, cs, Yellow) + ZoneCount(records, cs, Green)
          + ZoneCount(records, cs, Black) + ZoneCount(records, cs, Blue) == |records|
    decreases |records|
  {
    if records != [] {
      ZoneCountsSum(records[..|records| - 1], cs);
    }
  }

  /** The five counts add up to the total. */
  lemma CountsSumToTotal(data: seq<ProductData>, selectedDate: string, cs: ColorService)
    ensures var r := ColorStatsOf(data, selectedDate, cs); CountSum(r.stats) == r.total
  {
    ZoneCountsSum(FilterByDate(data, selectedDate), cs);
  }

  /** The indices of the records dated `selectedDate`. */
  function DatedIndices(data: seq<ProductData>, selectedDate: string): set<int>
  {
    set i | 0 <= i < |data| && data[i].VisibleForecastedDate == selectedDate
  }

  lemma {:induction false} FilterCountsDatedIndices(data: seq<ProductData>, selectedDate: string)
    ensures |FilterByDate(data, selectedDate)| == |DatedIndices(data, selectedDate)|
    decreases |data|
  {
    if data != [] {
      var n := |data| - 1;
      FilterCountsDatedIndices(data[..n], selectedDate);
      DatedIndicesOfLast(data, selectedDate);
    }
  }

  /** The last record adds its own index to the dated indices of the rest,
      or nothing. */
  lemma DatedIndicesOfLast(data: seq<ProductData>, selectedDate: string)
    requires data != []
    ensures var n := |data| - 1;
            |DatedIndices(data, selectedDate)|
            == |DatedIndices(data[..n], selectedDate)| + (if data[n].VisibleForecastedDate == selectedDate then 1 else 0)
  {
    var n := |data| - 1;
    var before := DatedIndices(data[..n], selectedDate);
    var after := DatedIndices(data, selectedDate);
    var added: set<int> := if data[n].VisibleForecastedDate == selectedDate then {n} else {};
    forall i ensures i in after <==> i in before + added {
      if 0 <= i < n {
        assert data[..n][i] == data[i];
      }
    }
    assert after == before + added;
    assert n !in before;
    assert before !! added;
  }

  /** The total is the number of records whose date is exactly `selectedDate`. */
  lemma TotalIsDatedCount(data: seq<ProductData>, selectedDate: string, cs: ColorService)
    ensures ColorStatsOf(data, selectedDate, cs).total == |DatedIndices(data, selectedDate)|
  {
    FilterCountsDatedIndices(data, selectedDate);
  }

  /** Appending a record: one with another date changes nothing; one with the
      selected date raises the total and the count of its own zone by one and
      leaves every other count alone. */
  lemma ColorStatsAppend(data: seq<ProductData>, x: ProductData, selectedDate: string, cs: ColorService, z: ColorZone)
    ensures var before := ColorStatsOf(data, selectedDate, cs);
            var after := ColorStatsOf(data + [x], selectedDate, cs);
            if x.VisibleForecastedDate != selectedDate then after == before
            else after.total == before.total + 1
                 && after.stats[z].count == before.stats[z].count + (if ZoneOf(cs, x) == z then 1 else 0)
  {
    var f := FilterByDate(data, selectedDate);
    assert (data + [x])[..|data|] == data;
    if x.VisibleForecastedDate == selectedDate {
      var g := FilterByDate(data + [x], selectedDate);
      assert g == f + [x];
      assert g[..|f|] == f;
      assert ZoneCount(g, cs, z) == ZoneCount(f, cs, z) + (if ZoneOf(cs, x) == z then 1 else 0);
      StatsTableAt(f, cs, z);
      StatsTableAt(g, cs, z);
    } else {
      assert FilterByDate(data + [x], selectedDate) == f;
    }
  }

  /** Nothing is divided when no record has the date: every zone keeps "0%". */
  lemma ZeroTotalKeepsZeroPercent(data: seq<ProductData>, selectedDate: string, cs: ColorService, z: ColorZone)
    requires ColorStatsOf(data, selectedDate, cs).total == 0
    ensures ColorStatsOf(data, selectedDate, cs).stats[z] == ColorStat(0, "0%")
  {
  }

  /** With records present, a share is the one-decimal text of count/total;
      an empty zone shows "0.0%" and a zone holding every record "100.0%". */
  lemma PercentagesWhenCounted(data: seq<ProductData>, selectedDate: string, cs: ColorService, z: ColorZone)
    requires ColorStatsOf(data, selectedDate, cs).total > 0
    ensures var r := ColorStatsOf(data, selectedDate, cs);
            && r.stats[z].percentage == Decimal.Fixed1(Share(r.stats[z].count, r.total)) + "%"
            && (r.stats[z].count == 0 ==> r.stats[z].percentage == "0.0%")
            && (r.stats[z].count == r.total ==> r.stats[z].percentage == "100.0%")
  {
    var r := ColorStatsOf(data, selectedDate, cs);
    PercentTenthsIsToFixed(r.stats[z].count, r.total);
    PercentTextBounds(r.total);
  }

  lemma PercentTextBounds(total: nat)
    requires total > 0
    ensures PercentText(0, total) == "0.0%"
    ensures PercentText(total, total) == "100.0%"
  {
    DivByMultiple(total, 2 * total, 0);
    DivByMultiple(2000 * total + total, 2 * total, 1000);
    Decimal.TenthsTextOfThousand();
  }

  /** A quotient is determined by the bracket its dividend falls in. */
  lemma DivByMultiple(a: nat, b: nat, q: nat)
    requires b > 0 && q * b <= a < q * b + b
    ensures a / b == q
  {
    var d, r := a / b, a % b;
    assert a == d * b + r && 0 <= r < b;
    MulMonotone(d + 1, q, b);
    MulMonotone(q + 1, d, b);
  }

  lemma MulMonotone(x: nat, y: nat, b: nat)
    ensures x <= y ==> x * b <= y * b
  {
  }

  /** The percentage pass of `calculateColorStats`: every zone, in key
      order, gets the share of its count in `total`. */
  method FillPercentages(counted: map<ColorZone, ColorStat>, total: nat) returns (stats: map<ColorZone, ColorStat>)
    requires counted.Keys == AllZones
    requires total > 0
    ensures stats.Keys == AllZones
    ensures forall z :: z in AllZones ==>
      stats[z] == ColorStat(counted[z].count, PercentText(counted[z].count, total))
  {
    stats := counted;
    for j := 0 to |ZoneKeyOrder|
      invariant stats.Keys == AllZones
      invariant forall z :: z in stats ==> stats[z].count == counted[z].count
      invariant forall z :: z in stats ==>
        stats[z].percentage == if z in ZoneKeyOrder[..j] then PercentText(counted[z].count, total) else counted[z].percentage
    {
      var color := ZoneKeyOrder[j];
      assert ZoneKeyOrder[..j + 1] == ZoneKeyOrder[..j] + [color];
      stats := stats[color := stats[color].(percentage := PercentText(stats[color].count, total))];
    }
    assert ZoneKeyOrder[..|ZoneKeyOrder|] == ZoneKeyOrder;
    ZoneKeyOrderCoversAllZones();
  }

  /** Counting one more record bumps its own zone's entry and keeps the
      table equal to the zone counts of the longer prefix. */
  lemma CountStep(stats: map<ColorZone, ColorStat>, records: seq<ProductData>, i: nat, cs: ColorService)
    requires stats.Keys == AllZones && i < |records|
    requires forall z :: z in AllZones ==> stats[z] == ColorStat(ZoneCount(records[..i], cs, z), "0%")
    ensures ZoneOf(cs, records[i]) in stats
    ensures var c := ZoneOf(cs, records[i]);
            var next := stats[c := stats[c].(count := stats[c].count + 1)];
            next.Keys == AllZones
            && forall z :: z in AllZones ==> next[z] == ColorStat(ZoneCount(records[..i + 1], cs, z), "0%")
  {
    TableHasEveryZone(stats);
    assert records[..i + 1][..i] == records[..i];
  }

  /** `StatisticsService.calculateColorStats`: counts the records of the
      selected date zone by zone, then fills in the percentages. */
  method CalculateColorStats(service: StatisticsService, data: seq<ProductData>, selectedDate: string)
    returns (r: ColorStatsResult)
    ensures r == ColorStatsOf(data, selectedDate, service.colorService)
  {
    var cs := service.colorService;
    var stats := InitialStats;
    var filteredData := FilterByDate(data, selectedDate);
    for i := 0 to |filteredData|
      invariant stats.Keys == AllZones
      invariant forall z :: z in AllZones ==> stats[z] == ColorStat(ZoneCount(filteredData[..i], cs, z), "0%")
    {
      var item := filteredData[i];
      var color := CalculateCellColor(cs, item.NetFlow, item.MakeToOrder, item.RedZone, item.YellowZone, item.GreenZone);
      CountStep(stats, filteredData, i, cs);
      stats := stats[color := stats[color].(count := stats[color].count + 1)];
    }
    assert filteredData[..|filteredData|] == filteredData;
    var total := |filteredData|;
    if total > 0 {
      stats := FillPercentages(stats, total);
    }
    assert forall z :: z in AllZones ==> stats[z] == StatFor(filteredData, cs, z);
    TableFromEntries(stats, filteredData, cs);
    r := ColorStatsResult(stats, total);
  }

  /** `calculateGeneralStats`' result. */
  datatype GeneralStats = GeneralStats(totalProducts: nat, averageNetFlow: real, averageMakeToOrder: real)

  /** `data.reduce((sum, item) => sum + field(item), 0)`. */
  function SumOf(data: seq<ProductData>, field: ProductData -> real): real
    decreases |data|
  {
    if data == [] then 0.0 else SumOf(data[..|data| - 1], field) + field(data[|data| - 1])
  }

  /** `Math.round(x * 100) / 100`: the nearest hundredth, halves rounded up. */
  function RoundToHundredths(x: real): (r: real)
    ensures x - 0.005 < r <= x + 0.005
    ensures (r * 100.0).Floor as real == r * 100.0
  {
    (x * 100.0 + 0.5).Floor as real / 100.0
  }

  function NetFlowOf(x: ProductData): real { x.NetFlow }

  function MakeToOrderOf(x: ProductData): real { x.MakeToOrder }

  /** `calculateGeneralStats`: all zeros on empty input, otherwise the
      record count and the two means rounded to hundredths. */
  function CalculateGeneralStats(data: seq<ProductData>): (r: GeneralStats)
    ensures |data| == 0 ==> r == GeneralStats(0, 0.0, 0.0)
    ensures |data| > 0 ==> r.totalProducts == |data|
    ensures |data| > 0 ==>
      var meanNetFlow := SumOf(data, NetFlowOf) / |data| as real;
      var meanMakeToOrder := SumOf(data, MakeToOrderOf) / |data| as real;
      && meanNetFlow - 0.005 < r.averageNetFlow <= meanNetFlow + 0.005
      && meanMakeToOrder - 0.005 < r.averageMakeToOrder <= meanMakeToOrder + 0.005
    ensures |data| > 0 ==>
      && (r.averageNetFlow * 100.0).Floor as real == r.averageNetFlow * 100.0
      && (r.averageMakeToOrder * 100.0).Floor as real == r.averageMakeToOrder * 100.0
  {
    if |data| == 0 then GeneralStats(0, 0.0, 0.0)
    else
      var totalNetFlow := SumOf(data, NetFlowOf);
      var totalMakeToOrder := SumOf(data, MakeToOrderOf);
      GeneralStats(|data|, RoundToHundredths(totalNetFlow / |data| as real),
                   RoundToHundredths(totalMakeToOrder / |data| as real))
  }
}
