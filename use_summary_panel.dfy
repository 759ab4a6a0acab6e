/** The logic of the summary-panel hook (src/hooks/useSummaryPanel.ts): which
    statistics are computed, which colour chips are shown, and the derived
    flags. Date formatting is a parameter. */
module SummaryPanelHook {
  import opened Wrappers
  import opened ProductModel
  import opened ColorServices
  import ColorPalette
  import opened Statistics

  /** `UseSummaryPanelConfig`: both services are optional. */
  datatype SummaryConfig = SummaryConfig(colorService: Option<ColorService>, statisticsService: Option<StatisticsService>)

  /** `ColorChipData`. */
  datatype ColorChip = ColorChip(color: ColorZone, stats: ColorStat, backgroundColor: string, colorName: string)

  /** What the hook returns, without the memoised style objects. */
  datatype SummaryPanelResult = SummaryPanelResult(
    hasData: bool, totalProducts: nat, formattedDate: string, colorChipsData: seq<ColorChip>)

  /** JavaScript truthiness of an optional string: present and non-empty. */
  predicate IsTruthy(s: Option<string>)
  {
    s.Some? && s.value != ""
  }

  /** The colour service the hook works with: the configured one, or the default. */
  function ResolvedColorService(config: SummaryConfig): (cs: ColorService)
    ensures config.colorService.Some? ==> cs == config.colorService.value
    ensures config.colorService.None? ==> cs == ColorPalette.CreateDefaultColorService()
  {
    if config.colorService.Some? then config.colorService.value else ColorPalette.CreateDefaultColorService()
  }

  /** The statistics service: the configured one, or a default one built over
      the resolved colour service. */
  function ResolvedStatisticsService(config: SummaryConfig): (ss: StatisticsService)
    ensures config.statisticsService.None? ==> ss.colorService == ResolvedColorService(config)
    ensures config.statisticsService.Some? ==> ss == config.statisticsService.value
  {
    if config.statisticsService.Some? then config.statisticsService.value
    else CreateDefaultStatisticsService(ResolvedColorService(config))
  }

  /** `colorStatsData`: nothing unless a date is selected. */
  function ColorStatsData(data: seq<ProductData>, selectedDate: Option<string>, ss: StatisticsService): (r: Option<ColorStatsResult>)
    ensures r.None? <==> !IsTruthy(selectedDate)
    ensures r.Some? ==> r.value == ColorStatsOf(data, selectedDate.value, ss.colorService)
  {
    if IsTruthy(selectedDate) then Some(ColorStatsOf(data, selectedDate.value, ss.colorService)) else None
  }

  /** The chips for `zones`, in that order, one per zone with a positive count. */
  function ChipsOver(zones: seq<ColorZone>, stats: map<ColorZone, ColorStat>, cs: ColorService): (chips: seq<ColorChip>)
    requires forall z :: z in zones ==> z in stats
    requires forall i, j :: 0 <= i < j < |zones| ==> KeyRank(zones[i]) < KeyRank(zones[j])
    ensures |chips| <= |zones|
    ensures forall c :: c in chips ==>
      && c.color in zones && c.stats == stats[c.color] && c.stats.count > 0
      && c.backgroundColor == GetBackgroundColor(cs, c.color) && c.colorName == GetColorName(cs, c.color)
    ensures forall i, j :: 0 <= i < j < |chips| ==> KeyRank(chips[i].color) < KeyRank(chips[j].color)
    decreases |zones|
  {
    if zones == [] then []
    else
      var z := zones[0];
      var rest := ChipsOver(zones[1..], stats, cs);
      assert forall c :: c in rest ==> KeyRank(z) < KeyRank(c.color) by {
        forall c | c in rest ensures KeyRank(z) < KeyRank(c.color) {
          HeadRanksBelowTail(zones, c.color);
        }
      }
      if stats[z].count > 0 then
        var head := ColorChip(z, stats[z], GetBackgroundColor(cs, z), GetColorName(cs, z));
        ConsKeepsRankOrder(head, rest);
        [head] + rest
      else rest
  }

  /** A chip ranking below every chip of a rank-ordered list can go in front of it. */
  lemma ConsKeepsRankOrder(head: ColorChip, rest: seq<ColorChip>)
    requires forall c :: c in rest ==> KeyRank(head.color) < KeyRank(c.color)
    requires forall i, j :: 0 <= i < j < |rest| ==> KeyRank(rest[i].color) < KeyRank(rest[j].color)
    ensures var chips := [head] + rest;
            forall i, j :: 0 <= i < j < |chips| ==> KeyRank(chips[i].color) < KeyRank(chips[j].color)
  {
    var chips := [head] + rest;
    forall i, j | 0 <= i < j < |chips| ensures KeyRank(chips[i].color) < KeyRank(chips[j].color) {
      assert chips[j] == rest[j - 1];
      if i == 0 {
        assert rest[j - 1] in rest;
      } else {
        assert chips[i] == rest[i - 1];
      }
    }
  }

  /** In a rank-ordered zone list the head ranks below every later zone. */
  lemma HeadRanksBelowTail(zones: seq<ColorZone>, x: ColorZone)
    requires forall i, j :: 0 <= i < j < |zones| ==> KeyRank(zones[i]) < KeyRank(zones[j])
    requires zones != [] && x in zones[1..]
    ensures KeyRank(zones[0]) < KeyRank(x)
  {
    var k :| 0 <= k < |zones[1..]| && zones[1..][k] == x;
    assert zones[k + 1] == x;
  }

  /** The colours of a chip list that starts with `c`. */
  lemma ColorsOfCons(c: ColorChip, rest: seq<ColorChip>)
    ensures ChipColors([c] + rest) == [c.color] + ChipColors(rest)
  {
  }

  /** Every zone of `zones` with a positive count has a chip. */
  lemma {:induction false} ChipsOverCovers(zones: seq<ColorZone>, stats: map<ColorZone, ColorStat>, cs: ColorService, z: ColorZone)
    requires forall z :: z in zones ==> z in stats
    requires forall i, j :: 0 <= i < j < |zones| ==> KeyRank(zones[i]) < KeyRank(zones[j])
    requires z in zones && stats[z].count > 0
    ensures z in ChipColors(ChipsOver(zones, stats, cs))
    decreases |zones|
  {
    var z0 := zones[0];
    var rest := ChipsOver(zones[1..], stats, cs);
    var head := ColorChip(z0, stats[z0], GetBackgroundColor(cs, z0), GetColorName(cs, z0));
    if z0 == z {
      ColorsOfCons(head, rest);
    } else {
      assert z in zones[1..];
      ChipsOverCovers(zones[1..], stats, cs, z);
      if stats[z0].count > 0 {
        ColorsOfCons(head, rest);
      }
    }
  }

  /** The colours of a chip list, in order. */
  function ChipColors(chips: seq<ColorChip>): (colors: seq<ColorZone>)
    ensures |colors| == |chips|
    ensures forall i :: 0 <= i < |chips| ==> colors[i] == chips[i].color
  {
    seq(|chips|, i requires 0 <= i < |chips| => chips[i].color)
  }

  /** `colorChipsData`: empty without statistics, otherwise the chips of the
      zones with records, in key order red, yellow, green, black, blue. */
  function ColorChipsData(statsData: Option<ColorStatsResult>, cs: ColorService): (chips: seq<ColorChip>)
    requires statsData.Some? ==> statsData.value.stats.Keys == AllZones
    ensures statsData.None? ==> chips == []
  {
    if statsData.None? then []
    else
      TableHasEveryZone(statsData.value.stats);
      ZoneKeyOrderIsRanked();
      ChipsOver(ZoneKeyOrder, statsData.value.stats, cs)
  }

  /** `Boolean(selectedDate && colorStatsData)`. */
  function HasData(selectedDate: Option<string>, statsData: Option<ColorStatsResult>): bool
  {
    IsTruthy(selectedDate) && statsData.Some?
  }

  /** `colorStatsData?.total || 0`. */
  function TotalProducts(statsData: Option<ColorStatsResult>): (n: nat)
    ensures statsData.None? ==> n == 0
    ensures statsData.Some? ==> n == statsData.value.total
  {
    if statsData.None? then 0 else statsData.value.total
  }

  /** `selectedDate ? formatDateForDisplay(selectedDate) : ''`. */
  function FormattedDate(selectedDate: Option<string>, format: string -> string): (s: string)
    ensures !IsTruthy(selectedDate) ==> s == ""
    ensures IsTruthy(selectedDate) ==> s == format(selectedDate.value)
  {
    if IsTruthy(selectedDate) then format(selectedDate.value) else ""
  }

  /** `useSummaryPanel(data, selectedDate, config)`. */
  function UseSummaryPanel(data: seq<ProductData>, selectedDate: Option<string>, config: SummaryConfig,
                           format: string -> string): (r: SummaryPanelResult)
    ensures r.hasData <==> IsTruthy(selectedDate)
    ensures !IsTruthy(selectedDate) ==> r.totalProducts == 0 && r.formattedDate == "" && r.colorChipsData == []
    ensures IsTruthy(selectedDate) ==>
              && r.totalProducts == |FilterByDate(data, selectedDate.value)|
              && r.formattedDate == format(selectedDate.value)
  {
    var cs := ResolvedColorService(config);
    var statsData := ColorStatsData(data, selectedDate, ResolvedStatisticsService(config));
    SummaryPanelResult(HasData(selectedDate, statsData), TotalProducts(statsData),
                       FormattedDate(selectedDate, format), ColorChipsData(statsData, cs))
  }

  /** Sum of the counts the chips display. */
  function ChipCountSum(chips: seq<ColorChip>): nat
  {
    if chips == [] then 0 else chips[0].stats.count + ChipCountSum(chips[1..])
  }

  /** Sum of the counts of `zones` in `stats`. */
  function ZoneCountSum(zones: seq<ColorZone>, stats: map<ColorZone, ColorStat>): nat
    requires forall z :: z in zones ==> z in stats
  {
    if zones == [] then 0 else stats[zones[0]].count + ZoneCountSum(zones[1..], stats)
  }

  /** Summing over the key order is the five-entry sum. */
  lemma ZoneCountSumIsCountSum(stats: map<ColorZone, ColorStat>)
    requires stats.Keys == AllZones
    ensures ZoneCountSum(ZoneKeyOrder, stats) == CountSum(stats)
  {
    TableHasEveryZone(stats);
    var o := ZoneKeyOrder;
    assert o[1..] == [Yellow, Green, Black, Blue] && o[1..][1..] == [Green, Black, Blue];
    assert o[1..][1..][1..] == [Black, Blue] && o[1..][1..][1..][1..] == [Blue];
    assert [Blue][1..] == [] && [Black, Blue][1..] == [Blue];
    assert [Green, Black, Blue][1..] == [Black, Blue] && [Yellow, Green, Black, Blue][1..] == [Green, Black, Blue];
    assert ZoneCountSum([], stats) == 0;
    assert [Blue][0] == Blue;
    var s4 := ZoneCountSum([Blue], stats);
    assert s4 == stats[Blue].count;
    var s3 := ZoneCountSum([Black, Blue], stats);
    assert s3 == stats[Black].count + s4;
    var s2 := ZoneCountSum([Green, Black, Blue], stats);
    assert s2 == stats[Green].count + s3;
    var s1 := ZoneCountSum([Yellow, Green, Black, Blue], stats);
    assert s1 == stats[Yellow].count + s2;
    assert ZoneCountSum(o, stats) == stats[Red].count + s1;
  }

  /** Dropping the zones with no records does not change the sum. */
  lemma {:induction false} ChipsKeepCountSum(zones: seq<ColorZone>, stats: map<ColorZone, ColorStat>, cs: ColorService)
    requires forall z :: z in zones ==> z in stats
    requires forall i, j :: 0 <= i < j < |zones| ==> KeyRank(zones[i]) < KeyRank(zones[j])
    ensures ChipCountSum(ChipsOver(zones, stats, cs)) == ZoneCountSum(zones, stats)
    decreases |zones|
  {
    if zones != [] {
      ChipsKeepCountSum(zones[1..], stats, cs);
      var rest := ChipsOver(zones[1..], stats, cs);
      if stats[zones[0]].count > 0 {
        var chips := ChipsOver(zones, stats, cs);
        assert chips[1..] == rest;
      }
    }
  }

  /** The shown chips are exactly the zones with records, in key order, each
      carrying the colour service's background and name. */
  lemma ChipsAreZonesWithRecords(data: seq<ProductData>, selectedDate: Option<string>, config: SummaryConfig,
                                 format: string -> string, z: ColorZone)
    ensures var r := UseSummaryPanel(data, selectedDate, config, format);
            var statsData := ColorStatsData(data, selectedDate, ResolvedStatisticsService(config));
            && (statsData.None? ==> r.colorChipsData == [])
            && (statsData.Some? ==>
                  (z in ChipColors(r.colorChipsData) <==> statsData.value.stats[z].count > 0))
            && (forall c :: c in r.colorChipsData ==>
                  c.backgroundColor == GetBackgroundColor(ResolvedColorService(config), c.color)
                  && c.colorName == GetColorName(ResolvedColorService(config), c.color))
            && (forall i, j :: 0 <= i < j < |r.colorChipsData| ==>
                  KeyRank(r.colorChipsData[i].color) < KeyRank(r.colorChipsData[j].color))
  {
    var cs := ResolvedColorService(config);
    var r := UseSummaryPanel(data, selectedDate, config, format);
    var statsData := ColorStatsData(data, selectedDate, ResolvedStatisticsService(config));
    assert r.colorChipsData == ColorChipsData(statsData, cs);
    if statsData.Some? {
      KeyOrderChipsAreZonesWithRecords(statsData, cs, z);
    }
  }

  /** Over the key order, a zone has a chip exactly when it has records. */
  lemma KeyOrderChipsAreZonesWithRecords(statsData: Option<ColorStatsResult>, cs: ColorService, z: ColorZone)
    requires statsData.Some? && statsData.value.stats.Keys == AllZones
    ensures z in ChipColors(ColorChipsData(statsData, cs)) <==> statsData.value.stats[z].count > 0
  {
    var stats := statsData.value.stats;
    TableHasEveryZone(stats);
    ZoneKeyOrderIsRanked();
    assert ColorChipsData(statsData, cs) == ChipsOver(ZoneKeyOrder, stats, cs);
    assert z in ZoneKeyOrder by { assert ZoneKeyOrder[KeyRank(z)] == z; }
    ChipsOverHasZoneIff(ZoneKeyOrder, stats, cs, z);
  }

  /** A zone of the list has a chip exactly when it has records. */
  lemma ChipsOverHasZoneIff(zones: seq<ColorZone>, stats: map<ColorZone, ColorStat>, cs: ColorService, z: ColorZone)
    requires forall z :: z in zones ==> z in stats
    requires forall i, j :: 0 <= i < j < |zones| ==> KeyRank(zones[i]) < KeyRank(zones[j])
    ensures z in ChipColors(ChipsOver(zones, stats, cs)) <==> z in zones && stats[z].count > 0
  {
    if z in zones && stats[z].count > 0 {
      ChipsOverCovers(zones, stats, cs, z);
    }
    ChipOfZoneHasRecords(zones, stats, cs, z);
  }

  /** A zone with a chip is one of the zones and has records. */
  lemma ChipOfZoneHasRecords(zones: seq<ColorZone>, stats: map<ColorZone, ColorStat>, cs: ColorService, z: ColorZone)
    requires forall z :: z in zones ==> z in stats
    requires forall i, j :: 0 <= i < j < |zones| ==> KeyRank(zones[i]) < KeyRank(zones[j])
    ensures z in ChipColors(ChipsOver(zones, stats, cs)) ==> z in zones && stats[z].count > 0
  {
    var chips := ChipsOver(zones, stats, cs);
    if z in ChipColors(chips) {
      var i :| 0 <= i < |chips| && ChipColors(chips)[i] == z;
      assert chips[i] in chips;
    }
  }

  /** The chip counts add up to `totalProducts`, and `hasData` holds exactly
      when a date is selected. */
  lemma ChipCountsSumToTotal(data: seq<ProductData>, selectedDate: Option<string>, config: SummaryConfig,
                             format: string -> string)
    ensures var r := UseSummaryPanel(data, selectedDate, config, format);
            && ChipCountSum(r.colorChipsData) == r.totalProducts
            && (r.hasData <==> IsTruthy(selectedDate))
            && (!IsTruthy(selectedDate) ==> r.totalProducts == 0 && r.formattedDate == "")
  {
    if IsTruthy(selectedDate) {
      var ss := ResolvedStatisticsService(config);
      var stats := ColorStatsOf(data, selectedDate.value, ss.colorService);
      TableHasEveryZone(stats.stats);
      ZoneKeyOrderIsRanked();
      ChipsKeepCountSum(ZoneKeyOrder, stats.stats, ResolvedColorService(config));
      ZoneCountSumIsCountSum(stats.stats);
      CountsSumToTotal(data, selectedDate.value, ss.colorService);
    }
  }
}
