/** The cell-renderer hook (src/hooks/useCellRenderer.ts): the zone of the
    row, the colours the cell is styled with, and the clamp applied to an
    edited value. `parseFloat` of the input text is the parameter `parsed`,
    with None for NaN. */
module CellRendererHook {
  import opened Wrappers
  import opened ProductModel
  import ColorUtils
  import ColorServices
  import ColorPalette

  /** `isNaN(v) ? 0 : Math.max(0, v)`. */
  function ClampEditValue(parsed: Option<real>): (v: real)
    ensures v >= 0.0
    ensures parsed.None? ==> v == 0.0
    ensures parsed.Some? && parsed.value >= 0.0 ==> v == parsed.value
    ensures parsed.Some? && parsed.value < 0.0 ==> v == 0.0
  {
    if parsed.None? then 0.0 else if parsed.value >= 0.0 then parsed.value else 0.0
  }

  /** Clamping a clamped value changes nothing. */
  lemma ClampIsIdempotent(parsed: Option<real>)
    ensures ClampEditValue(Some(ClampEditValue(parsed))) == ClampEditValue(parsed)
  {
  }

  /** The call `onValueChange(row.id, validValue)`. */
  datatype EditEvent = EditEvent(id: string, value: real)

  /** `handleValueChange`: the row's id with the clamped value. */
  function HandleValueChange(row: ProductData, parsed: Option<real>): (e: EditEvent)
    ensures e.id == row.id && e.value >= 0.0
    ensures parsed.Some? && parsed.value >= 0.0 ==> e.value == parsed.value
  {
    EditEvent(row.id, ClampEditValue(parsed))
  }

  /** What the hook derives for one row: its zone and the background and
      text colours of the cell. */
  datatype CellRendering = CellRendering(cellColor: ColorZone, backgroundColor: string, textColor: string)

  /** The service used: the configured one, or the default. */
  function ResolvedColorService(colorService: Option<ColorServices.ColorService>): (cs: ColorServices.ColorService)
    ensures colorService.Some? ==> cs == colorService.value
    ensures colorService.None? ==> cs == ColorPalette.CreateDefaultColorService()
  {
    if colorService.Some? then colorService.value else ColorPalette.CreateDefaultColorService()
  }

  /** `cellColor` and the two colours of `cellStyles.container`. */
  function UseCellRenderer(row: ProductData, colorService: Option<ColorServices.ColorService>): (c: CellRendering)
    ensures var cs := ResolvedColorService(colorService);
            && c.cellColor == ColorServices.CalculateCellColor(cs, row.NetFlow, row.MakeToOrder, row.RedZone, row.YellowZone, row.GreenZone)
            && c.backgroundColor == ColorServices.GetBackgroundColor(cs, c.cellColor)
            && c.textColor == ColorServices.GetTextColor(cs, c.cellColor)
  {
    var cs := ResolvedColorService(colorService);
    var cellColor := ColorServices.CalculateCellColor(cs, row.NetFlow, row.MakeToOrder, row.RedZone, row.YellowZone, row.GreenZone);
    CellRendering(cellColor, ColorServices.GetBackgroundColor(cs, cellColor), ColorServices.GetTextColor(cs, cellColor))
  }

  /** Without a configured service a cell is coloured by the utility
      classifier and the utility tables. */
  lemma DefaultCellUsesColorUtils(row: ProductData)
    ensures var c := UseCellRenderer(row, None);
            && c.cellColor == ColorUtils.CalculateCellColor(row.NetFlow, row.MakeToOrder, row.RedZone, row.YellowZone, row.GreenZone)
            && c.backgroundColor == ColorUtils.ColorMap(c.cellColor)
            && c.textColor == ColorUtils.TextColorForBackground(c.cellColor)
  {
    ColorPalette.DefaultServiceClassifies(row.NetFlow, row.MakeToOrder, row.RedZone, row.YellowZone, row.GreenZone);
    var c := UseCellRenderer(row, None);
    ColorPalette.TablesMatchColorUtils(c.cellColor);
  }
}
