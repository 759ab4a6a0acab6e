/** The projection-grid hook (src/hooks/useProjectionGrid.ts): the selected
    column, the header click rule, the column layout and the render data
    handed to cells and headers. The header date format is a parameter. */
module ProjectionGridHook {
  import opened Wrappers
  import opened ProductModel
  import ColorServices
  import opened GridData

  /** The part of a `GridColDef` the hook decides. */
  datatype ColumnDef = ColumnDef(field: string, headerName: string, width: nat)

  /** `CellRenderData` without its `onValueChange` callback, which is the
      hook's own `onCellEdit` argument passed through. */
  datatype CellRenderData = CellRenderData(data: Option<ProductData>, colorService: Option<ColorServices.ColorService>)

  /** `HeaderRenderData` without its `onClick` callback. */
  datatype HeaderRenderData = HeaderRenderData(field: string, isSelected: bool)

  /** The two fixed columns followed by one column per date. */
  function ColumnsFor(uniqueDates: seq<string>, formatHeader: string -> string): (cols: seq<ColumnDef>)
    ensures |cols| == 2 + |uniqueDates|
    ensures cols[0] == ColumnDef("CenterCode", "Centro", 100)
    ensures cols[1] == ColumnDef("Reference", "Referencia", 180)
    ensures forall i :: 0 <= i < |uniqueDates| ==>
      cols[2 + i] == ColumnDef(uniqueDates[i], formatHeader(uniqueDates[i]), 100)
  {
    var staticColumns := [ColumnDef("CenterCode", "Centro", 100), ColumnDef("Reference", "Referencia", 180)];
    var dateColumns := seq(|uniqueDates|, i requires 0 <= i < |uniqueDates| =>
      ColumnDef(uniqueDates[i], formatHeader(uniqueDates[i]), 100));
    staticColumns + dateColumns
  }

  /** `getCellRenderData`: render data only for a value that is an object
      with a `data` member, that is a date cell; none for the text fields
      and for a missing value. */
  function GetCellRenderData(value: Option<RowValue>, colorService: Option<ColorServices.ColorService>): (r: Option<CellRenderData>)
    ensures r.Some? <==> value.Some? && value.value.Cell?
    ensures r.Some? ==> r.value.data == value.value.data && r.value.colorService == colorService
  {
    if value.Some? && value.value.Cell? then Some(CellRenderData(value.value.data, colorService)) else None
  }

  /** The state and derived data of one use of the hook. */
  class ProjectionGrid {
    const uniqueDates: seq<string>
    const gridRows: seq<GridRow>
    const colorService: Option<ColorServices.ColorService>
    var selectedColumn: Option<string>

    /** The first render: rows and dates derived from `data`, no column selected. */
    constructor (data: seq<ProductData>, timeOf: string -> int, colorService: Option<ColorServices.ColorService>)
      ensures uniqueDates == GetUniqueDates(data, timeOf)
      ensures gridRows == GridRowsOf(data)
      ensures this.colorService == colorService
      ensures selectedColumn == None
    {
      uniqueDates := GetUniqueDates(data, timeOf);
      var rows := TransformToGridRows(data);
      gridRows := rows;
      this.colorService := colorService;
      selectedColumn := None;
    }

    /** `getHeaderRenderData`. */
    function GetHeaderRenderData(field: string): (h: HeaderRenderData)
      reads this
      ensures h.field == field
      ensures h.isSelected <==> selectedColumn == Some(field)
    {
      HeaderRenderData(field, selectedColumn == Some(field))
    }

    /** `columns`. */
    function Columns(formatHeader: string -> string): seq<ColumnDef>
    {
      ColumnsFor(uniqueDates, formatHeader)
    }

    /** `handleColumnHeaderClick`: a click on a date column selects it and
        notifies `onColumnSelect` (the returned value); any other click
        changes nothing and notifies no one. */
    method HandleColumnHeaderClick(field: string) returns (notified: Option<string>)
      modifies this
      ensures field in uniqueDates ==> selectedColumn == Some(field) && notified == Some(field)
      ensures field !in uniqueDates ==> selectedColumn == old(selectedColumn) && notified == None
      ensures field in uniqueDates ==> forall f :: GetHeaderRenderData(f).isSelected <==> f == field
    {
      notified := None;
      if field in uniqueDates {
        selectedColumn := Some(field);
        notified := Some(field);
      }
    }
  }

  /** Every date column is a unique date and every unique date has a column,
      so a click on a date column's header always selects it. */
  lemma DateColumnsAreClickable(uniqueDates: seq<string>, formatHeader: string -> string, i: int)
    requires 2 <= i < 2 + |uniqueDates|
    ensures ColumnsFor(uniqueDates, formatHeader)[i].field in uniqueDates
  {
    assert ColumnsFor(uniqueDates, formatHeader)[2 + (i - 2)].field == uniqueDates[i - 2];
  }

  /** When no record carries a reserved date, clicks on the two fixed
      columns are ignored. */
  lemma FixedColumnsAreNotSelectable(data: seq<ProductData>, timeOf: string -> int)
    requires NoReservedDates(data)
    ensures "CenterCode" !in GetUniqueDates(data, timeOf)
    ensures "Reference" !in GetUniqueDates(data, timeOf)
  {
    UniqueDatesSpec(data, timeOf, "CenterCode", 0);
    UniqueDatesSpec(data, timeOf, "Reference", 0);
  }

  /** Every record's cell in its transformed row hands a record of that
      date to the renderer. */
  lemma RowCellsRender(data: seq<ProductData>, i: int, colorService: Option<ColorServices.ColorService>)
    requires 0 <= i < |data|
    ensures var k := ProductKey(data[i]);
            var d := data[i].VisibleForecastedDate;
            && RowAfter(data, k).Some? && d in RowAfter(data, k).value
            && var r := GetCellRenderData(Some(RowAfter(data, k).value[d]), colorService);
               r.Some? && r.value.data.Some? && r.value.data.value.VisibleForecastedDate == d
  {
    EveryRecordIsReachable(data, i);
  }
}
