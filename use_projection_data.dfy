/** The projection-data hook (src/hooks/useProjectionData.ts): the `data`
    state, seeded with the sample record, and `updateMakeToOrder`, which
    replaces it by a copy with one id's MakeToOrder overwritten. */
module ProjectionDataHook {
  import opened ProductModel

  /** `mockData`. */
  const MockData: seq<ProductData> :=
    [ProductData("1", "BCV", "210001000004R20", "2025-03-21T00:00:00", 1513.0, 121.77, 121.77, 194.83, 0.0)]

  /** The replacement value `prev.map(...)`: records with the id get the new
      MakeToOrder, every other record is kept. */
  function WithMakeToOrder(data: seq<ProductData>, id: string, newValue: real): (r: seq<ProductData>)
    ensures |r| == |data|
  {
    seq(|data|, i requires 0 <= i < |data| =>
      if data[i].id == id then data[i].(MakeToOrder := newValue) else data[i])
  }

  /** Every record with the id carries exactly the new value, negative or
      not, and keeps its other fields; every other record is untouched. */
  lemma UpdateTouchesOnlyTheId(data: seq<ProductData>, id: string, newValue: real, i: int)
    requires 0 <= i < |data|
    ensures var r := WithMakeToOrder(data, id, newValue)[i];
            && r.id == data[i].id && r.CenterCode == data[i].CenterCode && r.Reference == data[i].Reference
            && r.VisibleForecastedDate == data[i].VisibleForecastedDate && r.NetFlow == data[i].NetFlow
            && r.GreenZone == data[i].GreenZone && r.YellowZone == data[i].YellowZone && r.RedZone == data[i].RedZone
            && (data[i].id == id ==> r.MakeToOrder == newValue)
            && (data[i].id != id ==> r == data[i])
  {
  }

  /** An id no record carries leaves the data equal to before. */
  lemma UnknownIdLeavesDataUnchanged(data: seq<ProductData>, id: string, newValue: real)
    requires forall i :: 0 <= i < |data| ==> data[i].id != id
    ensures WithMakeToOrder(data, id, newValue) == data
  {
  }

  /** Applying the same update twice is applying it once. */
  lemma UpdateIsIdempotent(data: seq<ProductData>, id: string, newValue: real)
    ensures WithMakeToOrder(WithMakeToOrder(data, id, newValue), id, newValue) == WithMakeToOrder(data, id, newValue)
  {
  }

  /** Of two updates of the same id, the later one wins. */
  lemma LaterUpdateWins(data: seq<ProductData>, id: string, v: real, w: real)
    ensures WithMakeToOrder(WithMakeToOrder(data, id, v), id, w) == WithMakeToOrder(data, id, w)
  {
  }

  /** The state of one use of the hook. */
  class ProjectionData {
    var data: seq<ProductData>

    /** The first render holds the sample data. */
    constructor ()
      ensures data == MockData
    {
      data := MockData;
    }

    /** `updateMakeToOrder`: no clamping; the value is stored as given. */
    method UpdateMakeToOrder(id: string, newValue: real)
      modifies this
      ensures data == WithMakeToOrder(old(data), id, newValue)
    {
      data := WithMakeToOrder(data, id, newValue);
    }
  }
}
