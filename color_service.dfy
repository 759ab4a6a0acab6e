/** The colour strategy and the service that delegates to injected
    collaborators (src/services/ColorService.ts). Each interface of the
    source becomes a function type, so any implementation can be injected. */
module ColorServices {
  import opened ProductModel
  import ColorUtils

  /** `IColorCalculationStrategy.calculateColor`. */
  type Classifier = (real, real, real, real, real) -> ColorZone

  /** `IColorPalette`. */
  datatype Palette = Palette(backgroundColor: ColorZone -> string, colorName: ColorZone -> string)

  /** `ITextColorService`. */
  datatype TextColors = TextColors(textColor: ColorZone -> string)

  /** `ColorService`: three collaborators fixed at construction. */
  datatype ColorService = ColorService(colorStrategy: Classifier, colorPalette: Palette, textColorService: TextColors)

  /** `InventoryZoneColorStrategy.calculateColor`, a second copy of the
      classifier in the source. */
  function InventoryZoneCalculateColor(netFlow: real, makeToOrder: real, redZone: real, yellowZone: real, greenZone: real): (r: ColorZone)
    ensures r == Black <==> netFlow + makeToOrder == 0.0
    ensures r == Red ==> 1.0 <= netFlow + makeToOrder <= redZone
  {
    var total := netFlow + makeToOrder;
    if total == 0.0 then Black
    else
      var yellowLimit := redZone + yellowZone;
      var greenLimit := yellowLimit + greenZone;
      if total >= 1.0 && total <= redZone then Red
      else if total <= yellowLimit then Yellow
      else if total <= greenLimit then Green
      else Blue
  }

  /** The strategy and the utility classifier agree on every input. */
  lemma StrategyAgreesWithColorUtils(netFlow: real, makeToOrder: real, redZone: real, yellowZone: real, greenZone: real)
    ensures InventoryZoneCalculateColor(netFlow, makeToOrder, redZone, yellowZone, greenZone)
         == ColorUtils.CalculateCellColor(netFlow, makeToOrder, redZone, yellowZone, greenZone)
  {
  }

  function CalculateCellColor(cs: ColorService, netFlow: real, makeToOrder: real, redZone: real, yellowZone: real, greenZone: real): ColorZone
  {
    cs.colorStrategy(netFlow, makeToOrder, redZone, yellowZone, greenZone)
  }

  function GetBackgroundColor(cs: ColorService, zone: ColorZone): string
  {
    cs.colorPalette.backgroundColor(zone)
  }

  function GetTextColor(cs: ColorService, zone: ColorZone): string
  {
    cs.textColorService.textColor(zone)
  }

  function GetColorName(cs: ColorService, zone: ColorZone): string
  {
    cs.colorPalette.colorName(zone)
  }

  /** Every service method hands its arguments, in order, to the injected
      collaborator and returns that collaborator's answer unchanged. */
  lemma ServiceDelegates(strategy: Classifier, palette: Palette, text: TextColors,
                         netFlow: real, makeToOrder: real, redZone: real, yellowZone: real, greenZone: real, zone: ColorZone)
    ensures var cs := ColorService(strategy, palette, text);
            && CalculateCellColor(cs, netFlow, makeToOrder, redZone, yellowZone, greenZone)
               == strategy(netFlow, makeToOrder, redZone, yellowZone, greenZone)
            && GetBackgroundColor(cs, zone) == palette.backgroundColor(zone)
            && GetTextColor(cs, zone) == text.textColor(zone)
            && GetColorName(cs, zone) == palette.colorName(zone)
  {
  }
}
