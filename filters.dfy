/**
 * The filter chain: an inclusive date range, then membership in the region,
 * state, county, city and status selections, each skipped while its selection
 * is empty; and the option lists the selections are made from.
 */
module Filters {
  import opened Wrappers
  import opened Seqs
  import opened Orders

  /** The two date pickers and the five multiselects. */
  datatype Selection = Selection(
    startDate: Date,
    endDate: Date,
    regions: set<string>,
    states: set<Option<string>>,
    counties: set<string>,
    cities: set<string>,
    statuses: set<string>)

  /** `order_date >= date1 & order_date <= date2`; NaT compares false. */
  predicate InDateRange(d: Option<Date>, startDate: Date, endDate: Date) {
    d.Some? && DateLe(startDate, d.value) && DateLe(d.value, endDate)
  }

  /** A row survives the whole chain. */
  predicate Matches(r: Order, sel: Selection) {
    && InDateRange(r.orderDate, sel.startDate, sel.endDate)
    && (sel.regions == {} || r.region in sel.regions)
    && (sel.states == {} || r.stateName in sel.states)
    && (sel.counties == {} || r.county in sel.counties)
    && (sel.cities == {} || r.city in sel.cities)
    && (sel.statuses == {} || r.status in sel.statuses)
  }

  function MatchTest(sel: Selection): Order -> bool {
    r => Matches(r, sel)
  }

  /** The rows the dashboard shows: those of the loaded table that survive the chain. */
  function Filtered(rows: seq<Order>, sel: Selection): seq<Order> {
    Where(rows, MatchTest(sel))
  }

  /** The steps of the chain, in the order they are applied. */
  datatype Step = DateStep | RegionStep | StateStep | CountyStep | CityStep | StatusStep

  /** The boolean mask of one step (`isin` matches NaN against a selected NaN). */
  predicate Passes(r: Order, sel: Selection, step: Step) {
    match step
    case DateStep => InDateRange(r.orderDate, sel.startDate, sel.endDate)
    case RegionStep => r.region in sel.regions
    case StateStep => r.stateName in sel.states
    case CountyStep => r.county in sel.counties
    case CityStep => r.city in sel.cities
    case StatusStep => r.status in sel.statuses
  }

  function StepTest(sel: Selection, step: Step): Order -> bool {
    r => Passes(r, sel, step)
  }

  /** A step is applied only while its selection is non-empty; the date step always. */
  predicate Applied(sel: Selection, step: Step) {
    match step
    case DateStep => true
    case RegionStep => sel.regions != {}
    case StateStep => sel.states != {}
    case CountyStep => sel.counties != {}
    case CityStep => sel.cities != {}
    case StatusStep => sel.statuses != {}
  }

  const Chain: seq<Step> := [DateStep, RegionStep, StateStep, CountyStep, CityStep, StatusStep]

  /** A row survives the first `n` steps of the chain. */
  ghost predicate PassesFirst(r: Order, sel: Selection, n: nat)
    requires n <= |Chain|
  {
    n == 0 || (PassesFirst(r, sel, n - 1) && (Applied(sel, Chain[n - 1]) ==> Passes(r, sel, Chain[n - 1])))
  }

  ghost function FirstTest(sel: Selection, n: nat): Order -> bool
    requires n <= |Chain|
  {
    r => PassesFirst(r, sel, n)
  }

  /** Applying step `n` to the rows that survived the steps before it. */
  lemma NextStep(rows: seq<Order>, sel: Selection, n: nat, step: Step)
    requires n < |Chain| && step == Chain[n]
    ensures Applied(sel, step) ==>
      Where(Where(rows, FirstTest(sel, n)), StepTest(sel, step)) == Where(rows, FirstTest(sel, n + 1))
    ensures !Applied(sel, step) ==> Where(rows, FirstTest(sel, n)) == Where(rows, FirstTest(sel, n + 1))
  {
    var before, test, after := FirstTest(sel, n), StepTest(sel, step), FirstTest(sel, n + 1);
    forall r ensures after(r) == (before(r) && (Applied(sel, step) ==> test(r))) {
      assert PassesFirst(r, sel, n + 1) == (PassesFirst(r, sel, n) && (Applied(sel, step) ==> Passes(r, sel, step)));
    }
    if Applied(sel, step) {
      WhereWhere(rows, before, test);
      WhereAgree(rows, Both(before, test), after);
    } else {
      WhereAgree(rows, before, after);
    }
  }

  /** Surviving all six steps is surviving the chain. */
  lemma WholeChain(rows: seq<Order>, sel: Selection)
    ensures Where(rows, FirstTest(sel, |Chain|)) == Filtered(rows, sel)
  {
    forall r ensures FirstTest(sel, |Chain|)(r) == MatchTest(sel)(r) {
      assert Chain[5] == StatusStep;
      assert PassesFirst(r, sel, 6) == (PassesFirst(r, sel, 5) && (Applied(sel, StatusStep) ==> Passes(r, sel, StatusStep)));
      assert Chain[4] == CityStep;
      assert PassesFirst(r, sel, 5) == (PassesFirst(r, sel, 4) && (Applied(sel, CityStep) ==> Passes(r, sel, CityStep)));
      assert Chain[3] == CountyStep;
      assert PassesFirst(r, sel, 4) == (PassesFirst(r, sel, 3) && (Applied(sel, CountyStep) ==> Passes(r, sel, CountyStep)));
      assert Chain[2] == StateStep;
      assert PassesFirst(r, sel, 3) == (PassesFirst(r, sel, 2) && (Applied(sel, StateStep) ==> Passes(r, sel, StateStep)));
      assert Chain[1] == RegionStep;
      assert PassesFirst(r, sel, 2) == (PassesFirst(r, sel, 1) && (Applied(sel, RegionStep) ==> Passes(r, sel, RegionStep)));
      assert Chain[0] == DateStep;
      assert PassesFirst(r, sel, 1) == (PassesFirst(r, sel, 0) && (Applied(sel, DateStep) ==> Passes(r, sel, DateStep)));
    }
    WhereAgree(rows, FirstTest(sel, |Chain|), MatchTest(sel));
  }

  /**
   * One membership step of the chain: `filtered_data` is narrowed by the step's
   * test when its selection is non-empty and left as it is otherwise.
   */
  method ApplyStep(ghost rows: seq<Order>, sel: Selection, filtered: seq<Order>, ghost n: nat, step: Step)
    returns (next: seq<Order>)
    requires n < |Chain| && step == Chain[n]
    requires filtered == Where(rows, FirstTest(sel, n))
    ensures Applied(sel, step) ==> next == Where(filtered, StepTest(sel, step))
    ensures !Applied(sel, step) ==> next == filtered
    ensures next == Where(rows, FirstTest(sel, n + 1))
  {
    NextStep(rows, sel, n, step);
    if Applied(sel, step) {
      next := Where(filtered, StepTest(sel, step));
    } else {
      next := filtered;
    }
  }

  /**
   * The filter chain as the dashboard runs it: `filtered_data` reassigned step by
   * step, the date step always and each membership step only while its selection is non-empty.
   */
  method FilterChain(rows: seq<Order>, sel: Selection) returns (filtered: seq<Order>)
    ensures filtered == Filtered(rows, sel)
  {
    ghost var k: nat := 0;
    WhereAll(rows, FirstTest(sel, k));
    filtered := ApplyStep(rows, sel, rows, k, DateStep);
    k := k + 1;
    filtered := ApplyStep(rows, sel, filtered, k, RegionStep);
    k := k + 1;
    filtered := ApplyStep(rows, sel, filtered, k, StateStep);
    k := k + 1;
    filtered := ApplyStep(rows, sel, filtered, k, CountyStep);
    k := k + 1;
    filtered := ApplyStep(rows, sel, filtered, k, CityStep);
    k := k + 1;
    filtered := ApplyStep(rows, sel, filtered, k, StatusStep);
    WholeChain(rows, sel);
  }

  /**
   * The filtered rows are an order-preserving subsequence of the loaded rows, and
   * a row is kept exactly when it lies in the date range and in every non-empty selection.
   */
  lemma FilteredRows(rows: seq<Order>, sel: Selection)
    ensures IsSubsequence(Filtered(rows, sel), rows)
    ensures forall r :: r in Filtered(rows, sel) <==> r in rows && Matches(r, sel)
  {
    WhereIsSubsequence(rows, MatchTest(sel));
  }

  /** With every multiselect empty, only the date range filters. */
  lemma EmptySelectionsKeepDateRange(rows: seq<Order>, sel: Selection)
    requires sel.regions == {} && sel.states == {} && sel.counties == {}
    requires sel.cities == {} && sel.statuses == {}
    ensures Filtered(rows, sel) == Where(rows, StepTest(sel, DateStep))
  {
    WhereAgree(rows, MatchTest(sel), StepTest(sel, DateStep));
  }

  /** A row whose `order_date` is NaT never survives the date step. */
  lemma UndatedRowsDropped(rows: seq<Order>, sel: Selection)
    ensures forall r :: r in Filtered(rows, sel) ==> r.orderDate.Some?
    ensures forall r :: r in Where(rows, StepTest(sel, DateStep)) ==> r.orderDate.Some?
  {
  }

  /**
   * `tighter` restricts at least as much as `looser`: its date range lies inside,
   * and every selection that `looser` applies, `tighter` applies with a subset.
   */
  predicate Narrower(tighter: Selection, looser: Selection) {
    && DateLe(looser.startDate, tighter.startDate)
    && DateLe(tighter.endDate, looser.endDate)
    && (looser.regions == {} || (tighter.regions != {} && tighter.regions <= looser.regions))
    && (looser.states == {} || (tighter.states != {} && tighter.states <= looser.states))
    && (looser.counties == {} || (tighter.counties != {} && tighter.counties <= looser.counties))
    && (looser.cities == {} || (tighter.cities != {} && tighter.cities <= looser.cities))
    && (looser.statuses == {} || (tighter.statuses != {} && tighter.statuses <= looser.statuses))
  }

  /**
   * Adding a selection, or narrowing one, never adds rows: the rows kept under
   * the narrower selection are a subsequence of those kept under the looser one.
   */
  lemma NarrowingNeverAddsRows(rows: seq<Order>, tighter: Selection, looser: Selection)
    requires Narrower(tighter, looser)
    ensures IsSubsequence(Filtered(rows, tighter), Filtered(rows, looser))
    ensures |Filtered(rows, tighter)| <= |Filtered(rows, looser)|
  {
    forall r | MatchTest(tighter)(r) ensures MatchTest(looser)(r) {
      assert Matches(r, tighter);
    }
    WhereStronger(rows, MatchTest(tighter), MatchTest(looser));
    SubsequenceLength(Filtered(rows, tighter), Filtered(rows, looser));
  }

  /** The options of a multiselect built from one column: its distinct values, in order of appearance. */
  function RegionOptions(rows: seq<Order>): seq<string> {
    Unique(MapSeq(rows, (r: Order) => r.region))
  }

  function CountyOptions(rows: seq<Order>): seq<string> {
    Unique(MapSeq(rows, (r: Order) => r.county))
  }

  function StatusOptions(rows: seq<Order>): seq<string> {
    Unique(MapSeq(rows, (r: Order) => r.status))
  }

  /** The state options: the distinct `State Complet` values (NaN included) of the rows in the selected regions. */
  function StateOptions(rows: seq<Order>, regions: set<string>): seq<Option<string>> {
    Unique(MapSeq(Where(rows, (r: Order) => r.region in regions), (r: Order) => r.stateName))
  }

  /** The city options: the distinct cities of the rows in the selected states. */
  function CityOptions(rows: seq<Order>, states: set<Option<string>>): seq<string> {
    Unique(MapSeq(Where(rows, (r: Order) => r.stateName in states), (r: Order) => r.city))
  }

  /**
   * The state options are each `State Complet` value of a row in a selected region,
   * once; so there are none while no region is selected.
   */
  lemma StateOptionsSpec(rows: seq<Order>, regions: set<string>)
    ensures Distinct(StateOptions(rows, regions))
    ensures forall s :: s in StateOptions(rows, regions) <==>
      exists r :: r in rows && r.region in regions && r.stateName == s
    ensures regions == {} ==> StateOptions(rows, regions) == []
  {
    var inRegions := Where(rows, (r: Order) => r.region in regions);
    var names := MapSeq(inRegions, (r: Order) => r.stateName);
    forall s ensures s in names <==> exists r :: r in rows && r.region in regions && r.stateName == s {
      if s in names {
        var i :| 0 <= i < |names| && names[i] == s;
        assert inRegions[i] in inRegions;
      }
      if exists r :: r in rows && r.region in regions && r.stateName == s {
        var r :| r in rows && r.region in regions && r.stateName == s;
        assert r in inRegions;
        var i :| 0 <= i < |inRegions| && inRegions[i] == r;
        assert names[i] == s;
      }
    }
    if regions == {} {
      WhereNone(rows, (r: Order) => r.region in regions);
    }
  }

  /**
   * The city options are each city of a row whose `State Complet` is selected, once;
   * none while no state is selected.
   */
  lemma CityOptionsSpec(rows: seq<Order>, states: set<Option<string>>)
    ensures Distinct(CityOptions(rows, states))
    ensures forall c :: c in CityOptions(rows, states) <==>
      exists r :: r in rows && r.stateName in states && r.city == c
    ensures states == {} ==> CityOptions(rows, states) == []
  {
    var inStates := Where(rows, (r: Order) => r.stateName in states);
    var cities := MapSeq(inStates, (r: Order) => r.city);
    forall c ensures c in cities <==> exists r :: r in rows && r.stateName in states && r.city == c {
      if c in cities {
        var i :| 0 <= i < |cities| && cities[i] == c;
        assert inStates[i] in inStates;
      }
      if exists r :: r in rows && r.stateName in states && r.city == c {
        var r :| r in rows && r.stateName in states && r.city == c;
        assert r in inStates;
        var i :| 0 <= i < |inStates| && inStates[i] == r;
        assert cities[i] == c;
      }
    }
    if states == {} {
      WhereNone(rows, (r: Order) => r.stateName in states);
    }
  }
}
