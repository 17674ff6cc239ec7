/**
 * The sales map: one marker per state whose display name the geocoder can place,
 * carrying that state's sales, sized by a clamped function of them.
 */
module SalesMap {
  import opened Wrappers
  import opened Seqs
  import opened Orders
  import opened Aggregates

  /** A latitude and longitude as the geocoder returns them. */
  datatype Coord = Coord(lat: real, lon: real)

  /** One entry of `coordinates`: a state, where to draw it, and its sales. */
  datatype MapPoint = MapPoint(state: string, lat: real, lon: real, sales: real)

  /**
   * `get_location`: the geocoder asked for "<state>, United States". The geocoder
   * is a parameter; a timeout or an unknown place is its None.
   */
  function GetLocation(state: string, geocode: string -> Option<Coord>): Option<Coord> {
    geocode(state + ", United States")
  }

  /** The map groups by `State Complet`; NaN names are dropped by the grouping. */
  function StateKey(): Order -> Option<string> {
    (r: Order) => r.stateName
  }

  /**
   * The markers for a series of state sums, in the series' order: a state is kept
   * with its coordinates and its sum exactly when the geocoder places it.
   */
  function MapPoints(gs: seq<Group<string>>, geocode: string -> Option<Coord>): (ps: seq<MapPoint>)
    ensures |ps| <= |gs|
    ensures forall p :: p in ps ==>
      Group(p.state, p.sales) in gs && GetLocation(p.state, geocode) == Some(Coord(p.lat, p.lon))
    ensures forall g :: g in gs && GetLocation(g.key, geocode).Some? ==>
      MapPoint(g.key, GetLocation(g.key, geocode).value.lat, GetLocation(g.key, geocode).value.lon, g.sum) in ps
    ensures IsSubsequence(MapSeq(ps, (p: MapPoint) => p.state), MapSeq(gs, (g: Group<string>) => g.key))
    decreases |gs|
  {
    if gs == [] then []
    else
      var init := gs[..|gs| - 1];
      var g := gs[|gs| - 1];
      var before := MapPoints(init, geocode);
      assert gs == init + [g];
      assert MapSeq(gs, (g: Group<string>) => g.key) == MapSeq(init, (g: Group<string>) => g.key) + [g.key];
      match GetLocation(g.key, geocode)
      case None =>
        SubsequenceExtend(MapSeq(before, (p: MapPoint) => p.state), MapSeq(init, (g: Group<string>) => g.key), g.key);
        before
      case Some(c) =>
        var ps := before + [MapPoint(g.key, c.lat, c.lon, g.sum)];
        assert MapSeq(ps, (p: MapPoint) => p.state) == MapSeq(before, (p: MapPoint) => p.state) + [g.key];
        SubsequenceSnoc(MapSeq(before, (p: MapPoint) => p.state), MapSeq(init, (g: Group<string>) => g.key), g.key);
        ps
  }

  /** The map series of the filtered rows. */
  function MapData(rows: seq<Order>, geocode: string -> Option<Coord>): seq<MapPoint> {
    MapPoints(GroupSums(rows, StateKey()), geocode)
  }

  /** The markers of one more state: the markers so far, and this state's when the geocoder places it. */
  lemma MapPointsStep(gs: seq<Group<string>>, i: nat, geocode: string -> Option<Coord>)
    requires i < |gs|
    ensures MapPoints(gs[..i + 1], geocode) == MapPoints(gs[..i], geocode) +
      (match GetLocation(gs[i].key, geocode)
       case None => []
       case Some(c) => [MapPoint(gs[i].key, c.lat, c.lon, gs[i].sum)])
  {
    assert gs[..i + 1][..i] == gs[..i];
  }

  /**
   * `prepare_map_data`: group the sales by state, then walk the states, appending
   * a marker for each one the geocoder places, with the sales looked up in the grouping.
   */
  method PrepareMapData(rows: seq<Order>, geocode: string -> Option<Coord>) returns (coordinates: seq<MapPoint>)
    ensures coordinates == MapData(rows, geocode)
  {
    var stateSales := GroupSums(rows, StateKey());
    coordinates := [];
    for i := 0 to |stateSales|
      invariant coordinates == MapPoints(stateSales[..i], geocode)
    {
      var state := stateSales[i].key;
      var coords := GetLocation(state, geocode);
      MapPointsStep(stateSales, i, geocode);
      if coords.Some? {
        var sales := SumOf(stateSales, state);
        assert sales == stateSales[i].sum by {
          EntrySum(stateSales, stateSales[i]);
        }
        coordinates := coordinates + [MapPoint(state, coords.value.lat, coords.value.lon, sales)];
      }
    }
    assert stateSales[..|stateSales|] == stateSales;
  }

  /**
   * The map series: a state appears exactly when some filtered row carries that
   * `State Complet` and the geocoder places it, once, at the geocoder's coordinates,
   * with the sum of `total` over the rows of that state; the states appear in the
   * order of the grouping.
   */
  lemma MapDataSpec(rows: seq<Order>, geocode: string -> Option<Coord>)
    ensures forall p :: p in MapData(rows, geocode) ==>
      p.sales == SumWhere(rows, StateKey(), p.state) && GetLocation(p.state, geocode) == Some(Coord(p.lat, p.lon))
    ensures forall s :: (exists p :: p in MapData(rows, geocode) && p.state == s) <==>
      (exists r :: r in rows && r.stateName == Some(s)) && GetLocation(s, geocode).Some?
    ensures Distinct(MapSeq(MapData(rows, geocode), (p: MapPoint) => p.state))
    ensures IsSubsequence(MapSeq(MapData(rows, geocode), (p: MapPoint) => p.state),
                          MapSeq(GroupSums(rows, StateKey()), (g: Group<string>) => g.key))
  {
    var gs := GroupSums(rows, StateKey());
    var ps := MapData(rows, geocode);
    GroupEntries(rows, StateKey());
    forall s | (exists r :: r in rows && r.stateName == Some(s)) && GetLocation(s, geocode).Some?
      ensures exists p :: p in ps && p.state == s
    {
      assert s in KeysIn(rows, StateKey());
      var g :| g in gs && g.key == s;
      var c := GetLocation(s, geocode).value;
      assert MapPoint(s, c.lat, c.lon, g.sum) in ps;
    }
    forall p | p in ps ensures p.state in KeysIn(rows, StateKey()) {
      assert Group(p.state, p.sales) in gs;
    }
    assert Distinct(MapSeq(gs, (g: Group<string>) => g.key));
    SubsequenceDistinct(MapSeq(ps, (p: MapPoint) => p.state), MapSeq(gs, (g: Group<string>) => g.key));
  }

  /** A marker's size: a thousandth of the sales, raised to 8 and capped at 20. */
  function MarkerSize(sales: real): (size: real)
    ensures 8.0 <= size <= 20.0
    ensures 8000.0 <= sales <= 20000.0 ==> size * 1000.0 == sales
    ensures sales <= 8000.0 ==> size == 8.0
    ensures sales >= 20000.0 ==> size == 20.0
  {
    var scaled := sales / 1000.0;
    var raised := if scaled >= 8.0 then scaled else 8.0;
    if raised <= 20.0 then raised else 20.0
  }

  /** More sales never draw a smaller marker. */
  lemma MarkerSizeMonotone(a: real, b: real)
    requires a <= b
    ensures MarkerSize(a) <= MarkerSize(b)
  {
  }

  /** The sizes of the markers, one per map entry, in order. */
  function MarkerSizes(ps: seq<MapPoint>): (sizes: seq<real>)
    ensures |sizes| == |ps|
    ensures forall i :: 0 <= i < |ps| ==> sizes[i] == MarkerSize(ps[i].sales) && 8.0 <= sizes[i] <= 20.0
  {
    seq(|ps|, i requires 0 <= i < |ps| => MarkerSize(ps[i].sales))
  }
}
