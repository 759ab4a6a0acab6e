/** The self-contained summary panel
    (src/components/SummaryPanel/SummaryPanelOptimized.tsx): its own copy of
    the per-date statistics, classified with the utility classifier, and the
    chips it renders from them. */
module SummaryPanelOptimized {
  import opened Wrappers
  import opened ProductModel
  import ColorUtils
  import ColorServices
  import ColorPalette
  import opened Statistics
  import SummaryPanelHook

  /** The module-level `calculateColorStats`: the same two passes as the
      statistics service, classifying with `colorUtils.calculateCellColor`. */
  method PanelCalculateColorStats(data: seq<ProductData>, selectedDate: string) returns (r: ColorStatsResult)
    ensures r == ColorStatsOf(data, selectedDate, ColorPalette.CreateDefaultColorService())
  {
    ghost var cs := ColorPalette.CreateDefaultColorService();
    var stats := InitialStats;
    var filteredData := FilterByDate(data, selectedDate);
    for i := 0 to |filteredData|
      invariant stats.Keys == AllZones
      invariant forall z :: z in AllZones ==> stats[z] == ColorStat(ZoneCount(filteredData[..i], cs, z), "0%")
    {
      var item := filteredData[i];
      var color := ColorUtils.CalculateCellColor(item.NetFlow, item.MakeToOrder, item.RedZone, item.YellowZone, item.GreenZone);
      ColorPalette.DefaultServiceClassifies(item.NetFlow, item.MakeToOrder, item.RedZone, item.YellowZone, item.GreenZone);
      assert color == ZoneOf(cs, item);
      CountStep(stats, filteredData, i, cs);
      stats := stats[color := stats[color].(count := stats[color].count + 1)];
    }
    assert filteredData[..|filteredData|] == filteredData;
    var total := |filteredData|;
    if total > 0 {
      stats := FillPercentages(stats, total);
    }
    assert forall z :: z in AllZones ==> stats[z] == StatFor(filteredData, cs, z);
    TableFromEntries(stats, filteredData, cs);
    r := ColorStatsResult(stats, total);
  }

  /** What one `ColorStatChip` shows: the utility background colour and name
      of its zone, the count and the percentage. */
  datatype ChipView = ChipView(color: ColorZone, backgroundColor: string, colorName: string, count: nat, percentage: string)

  function ColorStatChip(color: ColorZone, stats: ColorStat): (v: ChipView)
    ensures v.backgroundColor == ColorUtils.ColorMap(color) && v.colorName == ColorUtils.ColorNames(color)
    ensures v.color == color && v.count == stats.count && v.percentage == stats.percentage
  {
    ChipView(color, ColorUtils.ColorMap(color), ColorUtils.ColorNames(color), stats.count, stats.percentage)
  }

  /** The entries of `zones`, in that order, whose count is positive, rendered as chips. */
  function PanelChips(zones: seq<ColorZone>, stats: map<ColorZone, ColorStat>): (chips: seq<ChipView>)
    requires forall z :: z in zones ==> z in stats
    ensures |chips| <= |zones|
    ensures forall i :: 0 <= i < |chips| ==> chips[i].count > 0 && chips[i].color in zones
    decreases |zones|
  {
    if zones == [] then []
    else
      var rest := PanelChips(zones[1..], stats);
      if stats[zones[0]].count > 0 then [ColorStatChip(zones[0], stats[zones[0]])] + rest else rest
  }

  /** `renderColorChips`: nothing without statistics, otherwise the chips of
      the entries with records, in key order. */
  function RenderColorChips(statsData: Option<ColorStatsResult>): (chips: Option<seq<ChipView>>)
    requires statsData.Some? ==> statsData.value.stats.Keys == AllZones
    ensures chips.None? <==> statsData.None?
  {
    if statsData.None? then None
    else
      TableHasEveryZone(statsData.value.stats);
      Some(PanelChips(ZoneKeyOrder, statsData.value.stats))
  }

  /** What the panel renders: the empty state, or the titled result panel
      with its chips and the total. */
  datatype PanelView = EmptyState | ResultPanel(title: string, chips: seq<ChipView>, total: nat)

  /** The `SummaryPanel` component; `format` stands for `formatDateForDisplay`. */
  method SummaryPanel(data: seq<ProductData>, selectedDate: Option<string>, format: string -> string)
    returns (view: PanelView)
    ensures view.EmptyState? <==> !SummaryPanelHook.IsTruthy(selectedDate)
    ensures SummaryPanelHook.IsTruthy(selectedDate) ==>
      var r := ColorStatsOf(data, selectedDate.value, ColorPalette.CreateDefaultColorService());
      view == ResultPanel(format(selectedDate.value), RenderColorChips(Some(r)).value, r.total)
  {
    var colorStatsData: Option<ColorStatsResult> := None;
    if SummaryPanelHook.IsTruthy(selectedDate) {
      var r := PanelCalculateColorStats(data, selectedDate.value);
      colorStatsData := Some(r);
    }
    if !SummaryPanelHook.IsTruthy(selectedDate) || colorStatsData.None? {
      view := EmptyState;
    } else {
      view := ResultPanel(format(selectedDate.value), RenderColorChips(colorStatsData).value, colorStatsData.value.total);
    }
  }

  /** A hook chip as the panel draws it. */
  function ToView(c: SummaryPanelHook.ColorChip): ChipView
  {
    ChipView(c.color, c.backgroundColor, c.colorName, c.stats.count, c.stats.percentage)
  }

  /** The hook's chips, one by one, as the panel draws them. */
  function ToViews(chips: seq<SummaryPanelHook.ColorChip>): (views: seq<ChipView>)
    ensures |views| == |chips|
    ensures forall i :: 0 <= i < |chips| ==> views[i] == ToView(chips[i])
  {
    if chips == [] then [] else [ToView(chips[0])] + ToViews(chips[1..])
  }

  /** The panel's chips are the hook's chips under the default colour
      service: same zones in the same order, same figures, same colours. */
  lemma {:induction false} PanelChipsMatchHook(zones: seq<ColorZone>, stats: map<ColorZone, ColorStat>)
    requires forall z :: z in zones ==> z in stats
    requires forall i, j :: 0 <= i < j < |zones| ==> KeyRank(zones[i]) < KeyRank(zones[j])
    ensures PanelChips(zones, stats) == ToViews(SummaryPanelHook.ChipsOver(zones, stats, ColorPalette.CreateDefaultColorService()))
    decreases |zones|
  {
    if zones != [] {
      var cs := ColorPalette.CreateDefaultColorService();
      var rest := SummaryPanelHook.ChipsOver(zones[1..], stats, cs);
      PanelChipsMatchHook(zones[1..], stats);
      ColorPalette.TablesMatchColorUtils(zones[0]);
      var hook := SummaryPanelHook.ChipsOver(zones, stats, cs);
      if stats[zones[0]].count > 0 {
        assert hook == [hook[0]] + rest;
        assert ToViews(hook) == [ToView(hook[0])] + ToViews(rest);
      } else {
        assert hook == rest;
      }
    }
  }

  /** Sum of the counts the chips display. */
  function ChipViewSum(chips: seq<ChipView>): nat
  {
    if chips == [] then 0 else chips[0].count + ChipViewSum(chips[1..])
  }

  /** Drawing the chips keeps the sum of their counts. */
  lemma {:induction false} ChipViewSumOfViews(chips: seq<SummaryPanelHook.ColorChip>)
    ensures ChipViewSum(ToViews(chips)) == SummaryPanelHook.ChipCountSum(chips)
    decreases |chips|
  {
    if chips != [] {
      ChipViewSumOfViews(chips[1..]);
      assert ToViews(chips)[1..] == ToViews(chips[1..]);
    }
  }

  lemma ChipViewSumMatchesHook(zones: seq<ColorZone>, stats: map<ColorZone, ColorStat>)
    requires forall z :: z in zones ==> z in stats
    requires forall i, j :: 0 <= i < j < |zones| ==> KeyRank(zones[i]) < KeyRank(zones[j])
    ensures ChipViewSum(PanelChips(zones, stats))
         == SummaryPanelHook.ChipCountSum(SummaryPanelHook.ChipsOver(zones, stats, ColorPalette.CreateDefaultColorService()))
  {
    PanelChipsMatchHook(zones, stats);
    ChipViewSumOfViews(SummaryPanelHook.ChipsOver(zones, stats, ColorPalette.CreateDefaultColorService()));
  }

  /** Over any rank-ordered zone list, the chips are exactly its zones with
      records, in rank order. */
  lemma PanelChipsSelect(zones: seq<ColorZone>, stats: map<ColorZone, ColorStat>, z: ColorZone)
    requires forall z :: z in zones ==> z in stats
    requires forall i, j :: 0 <= i < j < |zones| ==> KeyRank(zones[i]) < KeyRank(zones[j])
    ensures var chips := PanelChips(zones, stats);
            && (z in zones && stats[z].count > 0 <==> exists i :: 0 <= i < |chips| && chips[i].color == z)
            && (forall i, j :: 0 <= i < j < |chips| ==> KeyRank(chips[i].color) < KeyRank(chips[j].color))
  {
    PanelChipsHaveZone(zones, stats, z);
    PanelChipsRanked(zones, stats);
  }

  lemma PanelChipsHaveZone(zones: seq<ColorZone>, stats: map<ColorZone, ColorStat>, z: ColorZone)
    requires forall z :: z in zones ==> z in stats
    requires forall i, j :: 0 <= i < j < |zones| ==> KeyRank(zones[i]) < KeyRank(zones[j])
    ensures var chips := PanelChips(zones, stats);
            z in zones && stats[z].count > 0 <==> exists i :: 0 <= i < |chips| && chips[i].color == z
  {
    if z in zones && stats[z].count > 0 {
      ZoneWithRecordsHasPanelChip(zones, stats, z);
    }
    PanelChipHasRecords(zones, stats, z);
  }

  lemma ZoneWithRecordsHasPanelChip(zones: seq<ColorZone>, stats: map<ColorZone, ColorStat>, z: ColorZone)
    requires forall z :: z in zones ==> z in stats
    requires forall i, j :: 0 <= i < j < |zones| ==> KeyRank(zones[i]) < KeyRank(zones[j])
    requires z in zones && stats[z].count > 0
    ensures var chips := PanelChips(zones, stats);
            exists i :: 0 <= i < |chips| && chips[i].color == z
  {
    var cs := ColorPalette.CreateDefaultColorService();
    var chips := PanelChips(zones, stats);
    var hook := SummaryPanelHook.ChipsOver(zones, stats, cs);
    PanelChipsMatchHook(zones, stats);
    SummaryPanelHook.ChipsOverCovers(zones, stats, cs, z);
    var k :| 0 <= k < |hook| && SummaryPanelHook.ChipColors(hook)[k] == z;
    assert chips[k] == ToView(hook[k]);
  }

  lemma PanelChipHasRecords(zones: seq<ColorZone>, stats: map<ColorZone, ColorStat>, z: ColorZone)
    requires forall z :: z in zones ==> z in stats
    requires forall i, j :: 0 <= i < j < |zones| ==> KeyRank(zones[i]) < KeyRank(zones[j])
    ensures var chips := PanelChips(zones, stats);
            (exists i :: 0 <= i < |chips| && chips[i].color == z) ==> z in zones && stats[z].count > 0
  {
    var chips := PanelChips(zones, stats);
    if exists i :: 0 <= i < |chips| && chips[i].color == z {
      var hook := SummaryPanelHook.ChipsOver(zones, stats, ColorPalette.CreateDefaultColorService());
      PanelChipsMatchHook(zones, stats);
      var i :| 0 <= i < |chips| && chips[i].color == z;
      assert chips[i] == ToView(hook[i]);
      assert hook[i] in hook;
    }
  }

  lemma PanelChipsRanked(zones: seq<ColorZone>, stats: map<ColorZone, ColorStat>)
    requires forall z :: z in zones ==> z in stats
    requires forall i, j :: 0 <= i < j < |zones| ==> KeyRank(zones[i]) < KeyRank(zones[j])
    ensures var chips := PanelChips(zones, stats);
            forall i, j :: 0 <= i < j < |chips| ==> KeyRank(chips[i].color) < KeyRank(chips[j].color)
  {
    var chips := PanelChips(zones, stats);
    var hook := SummaryPanelHook.ChipsOver(zones, stats, ColorPalette.CreateDefaultColorService());
    PanelChipsMatchHook(zones, stats);
    forall i, j | 0 <= i < j < |chips| ensures KeyRank(chips[i].color) < KeyRank(chips[j].color) {
      assert chips[i] == ToView(hook[i]) && chips[j] == ToView(hook[j]);
    }
  }

  /** The rendered chips are exactly the zones with records, in key order. */
  lemma PanelChipsAreZonesWithRecords(stats: map<ColorZone, ColorStat>, z: ColorZone)
    requires stats.Keys == AllZones
    ensures var chips := RenderColorChips(Some(ColorStatsResult(stats, 0))).value;
            && (stats[z].count > 0 <==> exists i :: 0 <= i < |chips| && chips[i].color == z)
            && (forall i, j :: 0 <= i < j < |chips| ==> KeyRank(chips[i].color) < KeyRank(chips[j].color))
  {
    TableHasEveryZone(stats);
    ZoneKeyOrderIsRanked();
    assert RenderColorChips(Some(ColorStatsResult(stats, 0))).value == PanelChips(ZoneKeyOrder, stats);
    assert z in ZoneKeyOrder by { assert ZoneKeyOrder[KeyRank(z)] == z; }
    PanelChipsSelect(ZoneKeyOrder, stats, z);
  }

  /** Dropping the empty zones keeps the five-entry sum. */
  lemma PanelChipsKeepCountSum(stats: map<ColorZone, ColorStat>)
    requires stats.Keys == AllZones
    ensures ChipViewSum(RenderColorChips(Some(ColorStatsResult(stats, 0))).value) == CountSum(stats)
  {
    var cs := ColorPalette.CreateDefaultColorService();
    TableHasEveryZone(stats);
    ZoneKeyOrderIsRanked();
    assert RenderColorChips(Some(ColorStatsResult(stats, 0))).value == PanelChips(ZoneKeyOrder, stats);
    ChipViewSumMatchesHook(ZoneKeyOrder, stats);
    SummaryPanelHook.ChipsKeepCountSum(ZoneKeyOrder, stats, cs);
    SummaryPanelHook.ZoneCountSumIsCountSum(stats);
  }

  /** The chip counts of a result panel add up to its displayed total. */
  lemma ResultPanelCountsSumToTotal(data: seq<ProductData>, selectedDate: string)
    ensures var r := ColorStatsOf(data, selectedDate, ColorPalette.CreateDefaultColorService());
            ChipViewSum(RenderColorChips(Some(r)).value) == r.total
  {
    var cs := ColorPalette.CreateDefaultColorService();
    var r := ColorStatsOf(data, selectedDate, cs);
    PanelChipsKeepCountSum(r.stats);
    assert RenderColorChips(Some(r)) == RenderColorChips(Some(ColorStatsResult(r.stats, 0)));
    CountsSumToTotal(data, selectedDate, cs);
  }
}
