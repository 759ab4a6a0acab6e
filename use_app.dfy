/** The application hook (src/hooks/useApp.ts): the selected date, the
    services it builds, the edit and column-select handlers and the three
    view flags. */
module AppHook {
  import opened Wrappers
  import opened ProductModel
  import ColorServices
  import ColorPalette
  import Statistics
  import ProjectionDataHook
  import CellRendererHook

  /** `shouldShowError`, `shouldShowLoading`, `shouldShowContent`. */
  datatype ShowFlags = ShowFlags(shouldShowError: bool, shouldShowLoading: bool, shouldShowContent: bool)

  /** JavaScript truthiness of `error: string | null`. */
  predicate ErrorIsSet(error: Option<string>)
  {
    error.Some? && error.value != ""
  }

  /** The three flags derived from `error` and `isLoading`. */
  function ShowFlagsOf(error: Option<string>, isLoading: bool): (f: ShowFlags)
    ensures f.shouldShowError <==> ErrorIsSet(error)
    ensures f.shouldShowContent <==> !ErrorIsSet(error) && !isLoading
    ensures f.shouldShowLoading <==> isLoading && !ErrorIsSet(error)
  {
    var hasError := ErrorIsSet(error);
    ShowFlags(hasError, isLoading && !hasError, !hasError && !isLoading)
  }

  /** Whatever `error` and `isLoading` are, exactly one view is shown. */
  lemma ExactlyOneViewIsShown(error: Option<string>, isLoading: bool)
    ensures var f := ShowFlagsOf(error, isLoading);
            && (f.shouldShowError || f.shouldShowLoading || f.shouldShowContent)
            && !(f.shouldShowError && f.shouldShowLoading)
            && !(f.shouldShowError && f.shouldShowContent)
            && !(f.shouldShowLoading && f.shouldShowContent)
  {
  }

  /** The state of one use of the hook. */
  class App {
    var selectedDate: Option<string>
    const colorService: ColorServices.ColorService
    const statisticsService: Statistics.StatisticsService
    const projection: ProjectionDataHook.ProjectionData

    /** The first render: no date selected, the default colour service and a
        statistics service built over that same colour service. */
    constructor ()
      ensures selectedDate == None
      ensures colorService == ColorPalette.CreateDefaultColorService()
      ensures statisticsService.colorService == colorService
      ensures fresh(projection) && projection.data == ProjectionDataHook.MockData
    {
      selectedDate := None;
      colorService := ColorPalette.CreateDefaultColorService();
      statisticsService := Statistics.CreateDefaultStatisticsService(ColorPalette.CreateDefaultColorService());
      projection := new ProjectionDataHook.ProjectionData();
    }

    /** `handleColumnSelect`: only the selected date changes. */
    method HandleColumnSelect(date: string)
      modifies this
      ensures selectedDate == Some(date)
      ensures projection.data == old(projection.data)
    {
      selectedDate := Some(date);
    }

    /** `handleCellEdit`: the id and the value go to `updateMakeToOrder`
        unchanged; the selected date is kept. */
    method HandleCellEdit(id: string, value: real)
      modifies projection
      ensures projection.data == ProjectionDataHook.WithMakeToOrder(old(projection.data), id, value)
      ensures selectedDate == old(selectedDate)
    {
      projection.UpdateMakeToOrder(id, value);
    }
  }

  /** An edit that comes from a cell renderer stores a non-negative
      MakeToOrder in every record with the edited row's id, though the
      update itself does not clamp. */
  lemma RendererEditsAreNonNegative(data: seq<ProductData>, row: ProductData, parsed: Option<real>, i: int)
    requires 0 <= i < |data| && data[i].id == row.id
    ensures var e := CellRendererHook.HandleValueChange(row, parsed);
            ProjectionDataHook.WithMakeToOrder(data, e.id, e.value)[i].MakeToOrder >= 0.0
  {
  }
}
