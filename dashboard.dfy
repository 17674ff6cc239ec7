/**
 * One pass of the dashboard script over a loaded table: the option lists offered
 * by the sidebar, the filter chain, and every figure drawn from the filtered rows.
 */
module Dashboard {
  import opened Wrappers
  import opened Orders
  import opened Filters
  import opened Aggregates
  import opened SalesMap

  /** What the page shows for one set of widget values. */
  datatype View = View(
    regionOptions: seq<string>,
    stateOptions: seq<Option<string>>,
    countyOptions: seq<string>,
    cityOptions: seq<string>,
    statusOptions: seq<string>,
    filtered: seq<Order>,
    kpis: Kpis,
    byCategory: seq<Group<string>>,
    byRegion: seq<Group<string>>,
    topClients: seq<Group<string>>,
    byGender: seq<Group<string>>,
    byMonth: seq<Group<YearMonth>>,
    mapPoints: seq<MapPoint>,
    markerSizes: seq<real>)

  /**
   * The script from the date filter to the map: options come from the whole loaded
   * table, every figure from the filtered rows only.
   */
  method Render(rows: seq<Order>, sel: Selection, geocode: string -> Option<Coord>) returns (view: View)
    ensures view == View(
      RegionOptions(rows), StateOptions(rows, sel.regions), CountyOptions(rows),
      CityOptions(rows, sel.states), StatusOptions(rows),
      Filtered(rows, sel), ComputeKpis(Filtered(rows, sel)),
      SalesByCategory(Filtered(rows, sel)), SalesByRegion(Filtered(rows, sel)), TopClients(Filtered(rows, sel)),
      SalesByGender(Filtered(rows, sel)), MonthlySales(Filtered(rows, sel)),
      MapData(Filtered(rows, sel), geocode), MarkerSizes(MapData(Filtered(rows, sel), geocode)))
  {
    var regionOptions := RegionOptions(rows);
    var stateOptions := StateOptions(rows, sel.regions);
    var countyOptions := CountyOptions(rows);
    var cityOptions := CityOptions(rows, sel.states);
    var statusOptions := StatusOptions(rows);
    var filtered := FilterChain(rows, sel);
    var mapPoints := PrepareMapData(filtered, geocode);
    view := View(regionOptions, stateOptions, countyOptions, cityOptions, statusOptions, filtered,
      ComputeKpis(filtered), SalesByCategory(filtered), SalesByRegion(filtered), TopClients(filtered),
      SalesByGender(filtered), MonthlySales(filtered), mapPoints, MarkerSizes(mapPoints));
  }

  /**
   * Every filtered row is dated, so the monthly series accounts for all of the
   * filtered sales: it adds up to the sales indicator and to each chart.
   */
  lemma MonthlyMatchesKpi(rows: seq<Order>, sel: Selection)
    ensures Total(MonthlySales(Filtered(rows, sel))) == ComputeKpis(Filtered(rows, sel)).sales
    ensures Total(SalesByCategory(Filtered(rows, sel))) == ComputeKpis(Filtered(rows, sel)).sales
  {
    UndatedRowsDropped(rows, sel);
    MonthlySalesSums(Filtered(rows, sel));
    KpiSalesMatchCategories(Filtered(rows, sel));
  }

  /** When no row survives the filters, the indicators are zero and every chart and the map are empty. */
  lemma NothingSelected(rows: seq<Order>, sel: Selection, geocode: string -> Option<Coord>)
    requires Filtered(rows, sel) == []
    ensures ComputeKpis(Filtered(rows, sel)) == Kpis(0.0, 0, 0)
    ensures SalesByCategory(Filtered(rows, sel)) == [] && SalesByRegion(Filtered(rows, sel)) == []
    ensures SalesByGender(Filtered(rows, sel)) == [] && TopClients(Filtered(rows, sel)) == []
    ensures MonthlySales(Filtered(rows, sel)) == []
    ensures MapData(Filtered(rows, sel), geocode) == []
  {
    SalesBySpec([], CategoryKey());
    SalesBySpec([], RegionKey());
    SalesBySpec([], GenderKey());
    TopClientsSpec([]);
  }
}
