/** The record type and the zone enumeration shared by every component
    (src/interfaces/ProductData.ts). */
module ProductModel {

  /** One forecast entry: one product at one centre on one date. Numeric
      fields are exact reals; after loading they are never NaN. */
  datatype ProductData = ProductData(
    id: string,
    CenterCode: string,
    Reference: string,
    VisibleForecastedDate: string,
    NetFlow: real,
    GreenZone: real,
    YellowZone: real,
    RedZone: real,
    MakeToOrder: real)

  /** `'red' | 'yellow' | 'green' | 'black' | 'blue'`. */
  datatype ColorZone = Red | Yellow | Green | Black | Blue

  /** Every zone; the key set of each per-zone record. */
  const AllZones: set<ColorZone> := {Red, Yellow, Green, Black, Blue}

  /** The order in which the per-zone object literals declare their keys,
      which is the order `Object.keys` and `Object.entries` visit them. */
  const ZoneKeyOrder: seq<ColorZone> := [Red, Yellow, Green, Black, Blue]

  /** Position of a zone in ZoneKeyOrder. */
  function KeyRank(z: ColorZone): (k: nat)
    ensures k < |ZoneKeyOrder| && ZoneKeyOrder[k] == z
  {
    match z
    case Red => 0
    case Yellow => 1
    case Green => 2
    case Black => 3
    case Blue => 4
  }

  /** ZoneKeyOrder lists every zone, and AllZones holds every zone. */
  lemma ZoneKeyOrderCoversAllZones()
    ensures forall z: ColorZone :: z in AllZones && z in ZoneKeyOrder
  {
    forall z: ColorZone ensures z in AllZones && z in ZoneKeyOrder {
      assert ZoneKeyOrder[KeyRank(z)] == z;
    }
  }

  /** A table whose keys are all zones has an entry for every zone. */
  lemma TableHasEveryZone<V>(m: map<ColorZone, V>)
    requires m.Keys == AllZones
    ensures forall z: ColorZone :: z in m
  {
    forall z: ColorZone ensures z in m {
      assert ZoneKeyOrder[KeyRank(z)] == z;
    }
  }

  /** ZoneKeyOrder lists each zone once, in increasing rank. */
  lemma ZoneKeyOrderIsRanked()
    ensures forall i, j :: 0 <= i < j < |ZoneKeyOrder| ==> KeyRank(ZoneKeyOrder[i]) < KeyRank(ZoneKeyOrder[j])
  {
    forall i | 0 <= i < |ZoneKeyOrder| ensures KeyRank(ZoneKeyOrder[i]) == i {
      assert i == 0 || i == 1 || i == 2 || i == 3 || i == 4;
    }
  }
}
