/** The default palette, text colours and the factory that wires the default
    colour service (src/services/ColorPalette.ts). */
module ColorPalette {
  import opened ProductModel
  import ColorUtils
  import opened ColorServices

  /** `ModernColorPalette.backgroundColors`. */
  function ModernBackgroundColor(zone: ColorZone): string
  {
    match zone
    case Red => "#ffebee"
    case Yellow => "#fff8e1"
    case Green => "#e8f5e8"
    case Black => "#f5f5f5"
    case Blue => "#e3f2fd"
  }

  /** `ModernColorPalette.colorNames`. */
  function ModernColorName(zone: ColorZone): string
  {
    match zone
    case Red => "Rojo"
    case Yellow => "Amarillo"
    case Green => "Verde"
    case Black => "Negro"
    case Blue => "Azul"
  }

  /** `ContrastTextColorService.textColors`. */
  function ContrastTextColor(zone: ColorZone): string
  {
    match zone
    case Red => "#c53030"
    case Yellow => "#d69e2e"
    case Green => "#38a169"
    case Blue => "#3182ce"
    case Black => "#4a5568"
  }

  function ModernColorPalette(): Palette
  {
    Palette(ModernBackgroundColor, ModernColorName)
  }

  function ContrastTextColorService(): TextColors
  {
    TextColors(ContrastTextColor)
  }

  /** `ColorServiceFactory.createDefaultColorService`. */
  function CreateDefaultColorService(): (cs: ColorService)
    ensures forall zone :: GetBackgroundColor(cs, zone) == ModernBackgroundColor(zone)
    ensures forall zone :: GetColorName(cs, zone) == ModernColorName(zone)
    ensures forall zone :: GetTextColor(cs, zone) == ContrastTextColor(zone)
  {
    ColorService(InventoryZoneCalculateColor, ModernColorPalette(), ContrastTextColorService())
  }

  /** The default service classifies exactly as the inventory-zone strategy,
      hence exactly as the utility classifier. */
  lemma DefaultServiceClassifies(netFlow: real, makeToOrder: real, redZone: real, yellowZone: real, greenZone: real)
    ensures CalculateCellColor(CreateDefaultColorService(), netFlow, makeToOrder, redZone, yellowZone, greenZone)
         == InventoryZoneCalculateColor(netFlow, makeToOrder, redZone, yellowZone, greenZone)
         == ColorUtils.CalculateCellColor(netFlow, makeToOrder, redZone, yellowZone, greenZone)
  {
    StrategyAgreesWithColorUtils(netFlow, makeToOrder, redZone, yellowZone, greenZone);
  }

  /** The service tables equal the utility tables, entry by entry. */
  lemma TablesMatchColorUtils(zone: ColorZone)
    ensures ModernBackgroundColor(zone) == ColorUtils.ColorMap(zone)
    ensures ModernColorName(zone) == ColorUtils.ColorNames(zone)
    ensures ContrastTextColor(zone) == ColorUtils.TextColorForBackground(zone)
  {
  }

  /** The five entries of each table are pairwise distinct. */
  lemma TablesAreInjective(a: ColorZone, b: ColorZone)
    requires a != b
    ensures ModernBackgroundColor(a) != ModernBackgroundColor(b)
    ensures ModernColorName(a) != ModernColorName(b)
    ensures ContrastTextColor(a) != ContrastTextColor(b)
  {
  }
}
