/** The zone classifier and the colour lookup tables (src/utils/colorUtils.ts). */
module ColorUtils {
  import opened ProductModel

  /** Classifies `netFlow + makeToOrder` against three band widths. The red
      test carries a lower bound of 1, so totals below 1 (negative ones
      included) are never red. */
  function CalculateCellColor(netFlow: real, makeToOrder: real, redZone: real, yellowZone: real, greenZone: real): (r: ColorZone)
    ensures r == Black <==> netFlow + makeToOrder == 0.0
  {
    var total := netFlow + makeToOrder;
    if total == 0.0 then Black
    else
      var yellowLimit := redZone + yellowZone;
      var greenLimit := yellowLimit + greenZone;
      if total >= 1.0 && total <= redZone then Red
      else if total <= yellowLimit then Yellow
      else if total <= greenLimit then Green
      else Blue
  }

  /** Rank of the bands a total of at least 1 can fall in. */
  function BandRank(z: ColorZone): nat
  {
    match z
    case Red => 0
    case Yellow => 1
    case Green => 2
    case Blue => 3
    case Black => 4
  }

  lemma RedIff(netFlow: real, makeToOrder: real, redZone: real, yellowZone: real, greenZone: real)
    ensures var total := netFlow + makeToOrder;
            CalculateCellColor(netFlow, makeToOrder, redZone, yellowZone, greenZone) == Red
            <==> total != 0.0 && 1.0 <= total <= redZone
    ensures netFlow + makeToOrder < 1.0 || redZone < 1.0
            ==> CalculateCellColor(netFlow, makeToOrder, redZone, yellowZone, greenZone) != Red
  {
  }

  lemma YellowIff(netFlow: real, makeToOrder: real, redZone: real, yellowZone: real, greenZone: real)
    ensures var total := netFlow + makeToOrder;
            CalculateCellColor(netFlow, makeToOrder, redZone, yellowZone, greenZone) == Yellow
            <==> total != 0.0 && !(1.0 <= total <= redZone) && total <= redZone + yellowZone
  {
  }

  lemma GreenIff(netFlow: real, makeToOrder: real, redZone: real, yellowZone: real, greenZone: real)
    ensures var total := netFlow + makeToOrder;
            CalculateCellColor(netFlow, makeToOrder, redZone, yellowZone, greenZone) == Green
            <==> total != 0.0 && !(1.0 <= total <= redZone) && total > redZone + yellowZone
                 && total <= redZone + yellowZone + greenZone
  {
  }

  lemma BlueIff(netFlow: real, makeToOrder: real, redZone: real, yellowZone: real, greenZone: real)
    ensures var total := netFlow + makeToOrder;
            CalculateCellColor(netFlow, makeToOrder, redZone, yellowZone, greenZone) == Blue
            <==> total != 0.0 && !(1.0 <= total <= redZone) && total > redZone + yellowZone
                 && total > redZone + yellowZone + greenZone
  {
  }

  /** A negative total, or one strictly between 0 and 1, lands in yellow
      whenever it does not exceed the yellow limit. */
  lemma BelowOneIsYellow(netFlow: real, makeToOrder: real, redZone: real, yellowZone: real, greenZone: real)
    requires netFlow + makeToOrder != 0.0 && netFlow + makeToOrder < 1.0
    requires netFlow + makeToOrder <= redZone + yellowZone
    ensures CalculateCellColor(netFlow, makeToOrder, redZone, yellowZone, greenZone) == Yellow
  {
  }

  lemma BoundaryExamples()
    ensures CalculateCellColor(0.0, 0.0, 10.0, 10.0, 10.0) == Black
    ensures CalculateCellColor(-5.0, 0.0, 10.0, 10.0, 10.0) == Yellow
    ensures CalculateCellColor(0.5, 0.0, 10.0, 10.0, 10.0) == Yellow
    ensures CalculateCellColor(1.0, 0.0, 10.0, 10.0, 10.0) == Red
    ensures CalculateCellColor(10.0, 0.0, 10.0, 10.0, 10.0) == Red
    ensures CalculateCellColor(11.0, 0.0, 10.0, 10.0, 10.0) == Yellow
    ensures CalculateCellColor(20.0, 0.0, 10.0, 10.0, 10.0) == Yellow
    ensures CalculateCellColor(30.0, 0.0, 10.0, 10.0, 10.0) == Green
    ensures CalculateCellColor(31.0, 0.0, 10.0, 10.0, 10.0) == Blue
    ensures CalculateCellColor(5.0, 5.0, 10.0, 10.0, 10.0) == Red
  {
  }

  /** Only the sum of net flow and make-to-order matters. */
  lemma DependsOnlyOnTotal(netFlow1: real, makeToOrder1: real, netFlow2: real, makeToOrder2: real,
                           redZone: real, yellowZone: real, greenZone: real)
    requires netFlow1 + makeToOrder1 == netFlow2 + makeToOrder2
    ensures CalculateCellColor(netFlow1, makeToOrder1, redZone, yellowZone, greenZone)
         == CalculateCellColor(netFlow2, makeToOrder2, redZone, yellowZone, greenZone)
  {
  }

  /** With non-negative widths, raising a total of at least 1 never moves it
      to a lower band: red < yellow < green < blue. */
  lemma BandsAreMonotone(total1: real, total2: real, redZone: real, yellowZone: real, greenZone: real)
    requires redZone >= 0.0 && yellowZone >= 0.0 && greenZone >= 0.0
    requires 1.0 <= total1 <= total2
    ensures BandRank(CalculateCellColor(total1, 0.0, redZone, yellowZone, greenZone))
         <= BandRank(CalculateCellColor(total2, 0.0, redZone, yellowZone, greenZone))
    ensures CalculateCellColor(total2, 0.0, redZone, yellowZone, greenZone) != Black
  {
  }

  /** `colorMap`: background colour of each zone. */
  function ColorMap(z: ColorZone): string
  {
    match z
    case Red => "#ffebee"
    case Yellow => "#fff8e1"
    case Green => "#e8f5e8"
    case Black => "#f5f5f5"
    case Blue => "#e3f2fd"
  }

  /** `colorNames`: display name of each zone. */
  function ColorNames(z: ColorZone): string
  {
    match z
    case Red => "Rojo"
    case Yellow => "Amarillo"
    case Green => "Verde"
    case Black => "Negro"
    case Blue => "Azul"
  }

  /** `getTextColorForBackground`: foreground colour of each zone. */
  function TextColorForBackground(z: ColorZone): string
  {
    match z
    case Red => "#c53030"
    case Yellow => "#d69e2e"
    case Green => "#38a169"
    case Blue => "#3182ce"
    case Black => "#4a5568"
  }

  /** Each table tells the five zones apart. */
  lemma TablesAreInjective(a: ColorZone, b: ColorZone)
    requires a != b
    ensures ColorMap(a) != ColorMap(b)
    ensures ColorNames(a) != ColorNames(b)
    ensures TextColorForBackground(a) != TextColorForBackground(b)
  {
  }
}
