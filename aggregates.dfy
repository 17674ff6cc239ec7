/**
 * The figures computed from the filtered rows: the three KPIs, the group-by-sum
 * series behind the charts (by category, region, gender and month), and the
 * top ten customers.
 */
module Aggregates {
  import opened Wrappers
  import opened Seqs
  import opened Orders

  /** One row of a `groupby(key)['total'].sum()` result. */
  datatype Group<K> = Group(key: K, sum: real)

  /** `df['total'].sum()`: 0 for no rows. */
  function SumTotal(rows: seq<Order>): real
    decreases |rows|
  {
    if rows == [] then 0.0 else SumTotal(rows[..|rows| - 1]) + rows[|rows| - 1].total
  }

  /** The sum of `total` over the rows whose key is `k`; a NaN key (None) matches nothing. */
  function SumWhere<K(==)>(rows: seq<Order>, key: Order -> Option<K>, k: K): real
    decreases |rows|
  {
    if rows == [] then 0.0
    else SumWhere(rows[..|rows| - 1], key, k) + (if key(rows[|rows| - 1]) == Some(k) then rows[|rows| - 1].total else 0.0)
  }

  /** The sum of `total` over the rows whose key is not NaN. */
  function SumKeyed<K>(rows: seq<Order>, key: Order -> Option<K>): real
    decreases |rows|
  {
    if rows == [] then 0.0
    else SumKeyed(rows[..|rows| - 1], key) + (if key(rows[|rows| - 1]).Some? then rows[|rows| - 1].total else 0.0)
  }

  /** The non-NaN keys occurring in `rows`. */
  function KeysIn<K(==,!new)>(rows: seq<Order>, key: Order -> Option<K>): (ks: set<K>)
    ensures forall k :: k in ks <==> exists r :: r in rows && key(r) == Some(k)
    decreases |rows|
  {
    if rows == [] then {}
    else
      var init := rows[..|rows| - 1];
      var last := rows[|rows| - 1];
      assert rows == init + [last];
      KeysIn(init, key) + (if key(last).Some? then {key(last).value} else {})
  }

  /** The keys of a grouped result. */
  function KeySet<K>(gs: seq<Group<K>>): set<K> {
    set g | g in gs :: g.key
  }

  /** One entry per key. */
  predicate DistinctKeys<K(==)>(gs: seq<Group<K>>) {
    forall i, j :: 0 <= i < j < |gs| ==> gs[i].key != gs[j].key
  }

  /** The sum of the entries' sums. */
  function Total<K>(gs: seq<Group<K>>): real
    decreases |gs|
  {
    if gs == [] then 0.0 else gs[0].sum + Total(gs[1..])
  }

  /** `gs[gs[key] == k]['sum'].iloc[0]`: the sum of the first entry with key `k`. The 0 for a missing key (where `.iloc[0]` raises) stands for a case the map loop never reaches: it looks up only keys of the grouping. */
  function SumOf<K(==)>(gs: seq<Group<K>>, k: K): real
    decreases |gs|
  {
    if gs == [] then 0.0 else if gs[0].key == k then gs[0].sum else SumOf(gs[1..], k)
  }

  /** The keys of an entry followed by more entries. */
  lemma KeySetCons<K>(g: Group<K>, gs: seq<Group<K>>)
    ensures KeySet([g] + gs) == {g.key} + KeySet(gs)
  {
    assert forall e :: e in [g] + gs <==> e == g || e in gs;
  }

  /** An entry followed by more entries has distinct keys exactly when the rest do and its key is new. */
  lemma DistinctKeysCons<K>(g: Group<K>, gs: seq<Group<K>>)
    ensures DistinctKeys([g] + gs) <==> g.key !in KeySet(gs) && DistinctKeys(gs)
  {
    var r := [g] + gs;
    if DistinctKeys(r) {
      forall i, j | 0 <= i < j < |gs| ensures gs[i].key != gs[j].key {
        assert gs[i] == r[i + 1] && gs[j] == r[j + 1];
      }
      forall e | e in gs ensures e.key != g.key {
        var i :| 0 <= i < |gs| && gs[i] == e;
        assert r[0] == g && r[i + 1] == e;
      }
      assert DistinctKeys(gs);
    }
    if g.key !in KeySet(gs) && DistinctKeys(gs) {
      forall i, j | 0 <= i < j < |r| ensures r[i].key != r[j].key {
        if i == 0 {
          assert r[j] in gs;
        } else {
          assert r[i] == gs[i - 1] && r[j] == gs[j - 1];
        }
      }
    }
  }

  /** Adds `v` to the entry for `k`, or appends a new entry for `k` when there is none. */
  function AddTo<K(==,!new)>(gs: seq<Group<K>>, k: K, v: real): (r: seq<Group<K>>)
    ensures KeySet(r) == KeySet(gs) + {k}
    ensures |r| == if k in KeySet(gs) then |gs| else |gs| + 1
    ensures Total(r) == Total(gs) + v
    ensures forall j :: SumOf(r, j) == SumOf(gs, j) + (if j == k then v else 0.0)
    ensures DistinctKeys(gs) ==> DistinctKeys(r)
    decreases |gs|
  {
    if gs == [] then [Group(k, v)]
    else
      assert gs == [gs[0]] + gs[1..];
      KeySetCons(gs[0], gs[1..]);
      DistinctKeysCons(gs[0], gs[1..]);
      if gs[0].key == k then
        KeySetCons(Group(k, gs[0].sum + v), gs[1..]);
        DistinctKeysCons(Group(k, gs[0].sum + v), gs[1..]);
        [Group(k, gs[0].sum + v)] + gs[1..]
      else
        var rest := AddTo(gs[1..], k, v);
        KeySetCons(gs[0], rest);
        DistinctKeysCons(gs[0], rest);
        [gs[0]] + rest
  }

  /**
   * `groupby(key)['total'].sum()`: one entry per non-NaN key, in order of first
   * appearance, holding the sum of `total` over the rows with that key.
   */
  function GroupSums<K(==,!new)>(rows: seq<Order>, key: Order -> Option<K>): (g: seq<Group<K>>)
    ensures DistinctKeys(g)
    ensures KeySet(g) == KeysIn(rows, key)
    ensures |g| == |KeysIn(rows, key)|
    ensures forall k :: SumOf(g, k) == SumWhere(rows, key, k)
    ensures Total(g) == SumKeyed(rows, key)
    decreases |rows|
  {
    if rows == [] then []
    else
      var init := GroupSums(rows[..|rows| - 1], key);
      var last := rows[|rows| - 1];
      assert KeysIn(rows, key) == KeysIn(rows[..|rows| - 1], key) + (if key(last).Some? then {key(last).value} else {});
      match key(last)
      case None => init
      case Some(k) => AddTo(init, k, last.total)
  }

  /** With distinct keys, the first entry for a key is its only entry. */
  lemma {:induction false} EntrySum<K>(gs: seq<Group<K>>, e: Group<K>)
    requires DistinctKeys(gs) && e in gs
    ensures SumOf(gs, e.key) == e.sum
    decreases |gs|
  {
    if gs[0] != e {
      assert DistinctKeys(gs[1..]) by {
        forall i, j | 0 <= i < j < |gs[1..]| ensures gs[1..][i].key != gs[1..][j].key {
          assert gs[1..][i] == gs[i + 1] && gs[1..][j] == gs[j + 1];
        }
      }
      var i :| 0 <= i < |gs| && gs[i] == e;
      assert gs[1..][i - 1] == e;
      EntrySum(gs[1..], e);
    }
  }

  /** Every entry of a group-by-sum holds the sum of `total` over the rows with its key. */
  lemma GroupEntries<K(!new)>(rows: seq<Order>, key: Order -> Option<K>)
    ensures forall e :: e in GroupSums(rows, key) ==> e.sum == SumWhere(rows, key, e.key)
  {
    forall e | e in GroupSums(rows, key) ensures e.sum == SumWhere(rows, key, e.key) {
      EntrySum(GroupSums(rows, key), e);
    }
  }

  /** When no row has a NaN key, the keyed sum is the whole sum. */
  lemma {:induction false} SumKeyedAllSome<K>(rows: seq<Order>, key: Order -> Option<K>)
    requires forall r :: r in rows ==> key(r).Some?
    ensures SumKeyed(rows, key) == SumTotal(rows)
    decreases |rows|
  {
    if rows != [] {
      assert rows[|rows| - 1] in rows;
      SumKeyedAllSome(rows[..|rows| - 1], key);
    }
  }

  /** A permutation of the entries has the same keys. */
  lemma KeySetPermutation<K>(a: seq<Group<K>>, b: seq<Group<K>>)
    requires multiset(a) == multiset(b)
    ensures KeySet(a) == KeySet(b)
  {
    assert forall e :: e in a <==> e in multiset(a);
    assert forall e :: e in b <==> e in multiset(b);
  }

  /** Inserting an entry adds its sum to the total. */
  lemma {:induction false} TotalInsert<K(!new)>(g: Group<K>, gs: seq<Group<K>>, before: (Group<K>, Group<K>) -> bool)
    ensures Total(Insert(g, gs, before)) == g.sum + Total(gs)
    decreases |gs|
  {
    if gs != [] && !before(g, gs[0]) {
      TotalInsert(g, gs[1..], before);
      var rest := Insert(g, gs[1..], before);
      assert ([gs[0]] + rest)[1..] == rest;
    }
  }

  /** Inserting an entry with a new key keeps the keys distinct. */
  lemma {:induction false} DistinctKeysInsert<K(!new)>(g: Group<K>, gs: seq<Group<K>>, before: (Group<K>, Group<K>) -> bool)
    requires DistinctKeys(gs) && g.key !in KeySet(gs)
    ensures DistinctKeys(Insert(g, gs, before))
    decreases |gs|
  {
    if gs == [] || before(g, gs[0]) {
      DistinctKeysCons(g, gs);
    } else {
      assert gs == [gs[0]] + gs[1..];
      KeySetCons(gs[0], gs[1..]);
      DistinctKeysCons(gs[0], gs[1..]);
      DistinctKeysInsert(g, gs[1..], before);
      var rest := Insert(g, gs[1..], before);
      KeySetPermutation(rest, gs[1..] + [g]);
      KeySetCons(g, []);
      assert KeySet(gs[1..] + [g]) == KeySet(gs[1..]) + {g.key} by {
        assert forall e :: e in gs[1..] + [g] <==> e in gs[1..] || e == g;
      }
      DistinctKeysCons(gs[0], rest);
    }
  }

  /**
   * Sorting a grouped result reorders it and nothing more: the same entries, hence
   * the same keys.
   */
  lemma SortKeepsEntries<K(!new)>(gs: seq<Group<K>>, before: (Group<K>, Group<K>) -> bool)
    ensures forall e :: e in SortBy(gs, before) <==> e in gs
    ensures KeySet(SortBy(gs, before)) == KeySet(gs)
  {
    var s := SortBy(gs, before);
    assert forall e :: e in s <==> e in multiset(s);
    assert forall e :: e in gs <==> e in multiset(gs);
    KeySetPermutation(s, gs);
  }

  /** Sorting a grouped result keeps its total, and keeps one entry per key. */
  lemma {:induction false} SortKeepsTotal<K(!new)>(gs: seq<Group<K>>, before: (Group<K>, Group<K>) -> bool)
    ensures Total(SortBy(gs, before)) == Total(gs)
    ensures DistinctKeys(gs) ==> DistinctKeys(SortBy(gs, before))
    decreases |gs|
  {
    if gs != [] {
      assert gs == [gs[0]] + gs[1..];
      SortKeepsTotal(gs[1..], before);
      var rest := SortBy(gs[1..], before);
      TotalInsert(gs[0], rest, before);
      if DistinctKeys(gs) {
        SortKeepsEntries(gs[1..], before);
        KeySetCons(gs[0], gs[1..]);
        DistinctKeysCons(gs[0], gs[1..]);
        DistinctKeysInsert(gs[0], rest, before);
      }
    }
  }

  /** Both facts about sorting a grouped result. */
  lemma SortGroups<K(!new)>(gs: seq<Group<K>>, before: (Group<K>, Group<K>) -> bool)
    ensures forall e :: e in SortBy(gs, before) <==> e in gs
    ensures KeySet(SortBy(gs, before)) == KeySet(gs)
    ensures Total(SortBy(gs, before)) == Total(gs)
    ensures DistinctKeys(gs) ==> DistinctKeys(SortBy(gs, before))
  {
    SortKeepsEntries(gs, before);
    SortKeepsTotal(gs, before);
  }

  /** `sort_values(by='total', ascending=False)`: larger sums first. */
  function ByTotalDesc<K>(): (Group<K>, Group<K>) -> bool {
    (a: Group<K>, b: Group<K>) => a.sum >= b.sum
  }

  /** Month-Year order: earlier months first. */
  function ByMonth(): (Group<YearMonth>, Group<YearMonth>) -> bool {
    (a: Group<YearMonth>, b: Group<YearMonth>) => MonthLe(a.key, b.key)
  }

  lemma ByTotalDescOrders<K(!new)>()
    ensures TotalPreorder(ByTotalDesc<K>())
  {
  }

  lemma ByMonthOrders()
    ensures TotalPreorder(ByMonth())
  {
  }

  /** A chart series: `groupby(key)['total'].sum()` sorted by descending sum. */
  function SalesBy<K(==,!new)>(rows: seq<Order>, key: Order -> Option<K>): seq<Group<K>> {
    SortBy(GroupSums(rows, key), ByTotalDesc())
  }

  function CategoryKey(): Order -> Option<string> {
    (r: Order) => Some(r.category)
  }

  function RegionKey(): Order -> Option<string> {
    (r: Order) => Some(r.region)
  }

  function GenderKey(): Order -> Option<string> {
    (r: Order) => Some(r.gender)
  }

  function ClientKey(): Order -> Option<string> {
    (r: Order) => Some(r.fullName)
  }

  /** The bar chart of sales per category. */
  function SalesByCategory(rows: seq<Order>): seq<Group<string>> {
    SalesBy(rows, CategoryKey())
  }

  /** The donut of sales per region (plotly orders the slices by decreasing value). */
  function SalesByRegion(rows: seq<Order>): seq<Group<string>> {
    SalesBy(rows, RegionKey())
  }

  /** The bar chart of sales per gender. */
  function SalesByGender(rows: seq<Order>): seq<Group<string>> {
    SalesBy(rows, GenderKey())
  }

  /**
   * A sorted group-by-sum has one entry per key occurring in the rows, each holding
   * the sum of `total` over the rows with its key, in non-increasing order of sum,
   * and the entries add up to the total of the keyed rows.
   */
  lemma SalesBySpec<K(!new)>(rows: seq<Order>, key: Order -> Option<K>)
    ensures DistinctKeys(SalesBy(rows, key))
    ensures KeySet(SalesBy(rows, key)) == KeysIn(rows, key)
    ensures |SalesBy(rows, key)| == |KeysIn(rows, key)|
    ensures forall e :: e in SalesBy(rows, key) ==> e.sum == SumWhere(rows, key, e.key)
    ensures forall i, j :: 0 <= i < j < |SalesBy(rows, key)| ==> SalesBy(rows, key)[i].sum >= SalesBy(rows, key)[j].sum
    ensures Total(SalesBy(rows, key)) == SumKeyed(rows, key)
  {
    var g := GroupSums(rows, key);
    SortGroups(g, ByTotalDesc());
    GroupEntries(rows, key);
    ByTotalDescOrders<K>();
  }

  /** The category, region and gender series each add up to the overall sales. */
  lemma ChartTotals(rows: seq<Order>)
    ensures Total(SalesByCategory(rows)) == SumTotal(rows)
    ensures Total(SalesByRegion(rows)) == SumTotal(rows)
    ensures Total(SalesByGender(rows)) == SumTotal(rows)
  {
    SalesBySpec(rows, CategoryKey());
    SalesBySpec(rows, RegionKey());
    SalesBySpec(rows, GenderKey());
    SumKeyedAllSome(rows, CategoryKey());
    SumKeyedAllSome(rows, RegionKey());
    SumKeyedAllSome(rows, GenderKey());
  }

  /** How many customers the top-clients chart shows at most. */
  const TopCount: nat := 10

  /** The first `n` entries of a ranked series, or all of them when there are fewer. */
  function Leaders<K>(ranked: seq<Group<K>>, n: nat): (top: seq<Group<K>>)
    ensures |top| == if |ranked| < n then |ranked| else n
  {
    ranked[..if |ranked| < n then |ranked| else n]
  }

  /** `groupby('full_name')['total'].sum().nlargest(10)`. */
  function TopClients(rows: seq<Order>): seq<Group<string>> {
    Leaders(SalesBy(rows, ClientKey()), TopCount)
  }

  /**
   * The leaders of a non-increasing series are entries of it; an entry of any
   * series contained in it that is not among them comes after them, so the
   * leaders are full and its sum is no larger than the last leader's.
   */
  lemma LeadersCutoff<K>(all: seq<Group<K>>, ranked: seq<Group<K>>, n: nat)
    requires forall e :: e in all ==> e in ranked
    requires forall i, j :: 0 <= i < j < |ranked| ==> ranked[i].sum >= ranked[j].sum
    ensures forall e :: e in Leaders(ranked, n) ==> e in ranked
    ensures forall e :: e in all && e !in Leaders(ranked, n) ==>
      |Leaders(ranked, n)| == n && (n == 0 || e.sum <= Leaders(ranked, n)[n - 1].sum)
  {
    var top := Leaders(ranked, n);
    forall e | e in top ensures e in ranked {
      var i :| 0 <= i < |top| && top[i] == e;
      assert ranked[i] == e;
    }
    forall e | e in all && e !in top ensures |top| == n && (n == 0 || e.sum <= top[n - 1].sum) {
      var j :| 0 <= j < |ranked| && ranked[j] == e;
    }
  }

  /**
   * The top clients: ten customers, or all of them when there are fewer, each
   * once, in non-increasing order of their sums.
   */
  lemma TopClientsSpec(rows: seq<Order>)
    ensures |TopClients(rows)| == if |KeysIn(rows, ClientKey())| < TopCount then |KeysIn(rows, ClientKey())| else TopCount
    ensures DistinctKeys(TopClients(rows))
    ensures forall i, j :: 0 <= i < j < |TopClients(rows)| ==> TopClients(rows)[i].sum >= TopClients(rows)[j].sum
  {
    SalesBySpec(rows, ClientKey());
  }

  /** The leaders of a ranking by sales are entries of the table that was ranked. */
  lemma RankedLeaders<K(!new)>(gs: seq<Group<K>>, n: nat)
    ensures forall e :: e in Leaders(SortBy(gs, ByTotalDesc()), n) ==> e in gs
  {
    var ranked := SortBy(gs, ByTotalDesc());
    assert forall e :: e in ranked ==> e in gs by {
      SortKeepsEntries(gs, ByTotalDesc());
    }
    assert forall e :: e in Leaders(ranked, n) ==> e in ranked by {
      LeadersCutoff([], ranked, n);
    }
  }

  /** Every top client is an entry of the grouping by customer: no name is listed that no row carries. */
  lemma TopClientsFromGrouping(rows: seq<Order>)
    ensures forall e :: e in TopClients(rows) ==> e in GroupSums(rows, ClientKey())
  {
    RankedLeaders(GroupSums(rows, ClientKey()), TopCount);
  }

  /** Each top client's entry holds the sum of `total` over that customer's rows. */
  lemma TopClientsSums(rows: seq<Order>)
    ensures forall e :: e in TopClients(rows) ==> e.sum == SumWhere(rows, ClientKey(), e.key)
  {
    var ranked := SalesBy(rows, ClientKey());
    assert (forall e :: e in ranked ==> e.sum == SumWhere(rows, ClientKey(), e.key))
      && (forall i, j :: 0 <= i < j < |ranked| ==> ranked[i].sum >= ranked[j].sum) by {
      SalesBySpec(rows, ClientKey());
    }
    LeadersCutoff([], ranked, TopCount);
  }

  /** No customer left out of the top clients has a larger sum than the last one shown. */
  lemma TopClientsCutoff(rows: seq<Order>)
    ensures forall e :: e in GroupSums(rows, ClientKey()) && e !in TopClients(rows) ==>
      |TopClients(rows)| == TopCount && e.sum <= TopClients(rows)[TopCount - 1].sum
  {
    var all := GroupSums(rows, ClientKey());
    var ranked := SalesBy(rows, ClientKey());
    assert (forall e :: e in all ==> e in ranked)
      && (forall i, j :: 0 <= i < j < |ranked| ==> ranked[i].sum >= ranked[j].sum) by {
      SalesBySpec(rows, ClientKey());
      SortKeepsEntries(all, ByTotalDesc());
    }
    LeadersCutoff(all, ranked, TopCount);
  }

  /** The `Month-Year` of a row: its date truncated to the month, NaT for an undated row. */
  function MonthKey(): Order -> Option<YearMonth> {
    (r: Order) => if r.orderDate.Some? then Some(MonthOf(r.orderDate.value)) else None
  }

  /** `groupby('Month-Year')['total'].sum()`, months in calendar order. */
  function MonthlySales(rows: seq<Order>): seq<Group<YearMonth>> {
    SortBy(GroupSums(rows, MonthKey()), ByMonth())
  }

  /**
   * The monthly series has one entry per month in which some row is dated, in
   * strictly chronological order.
   */
  lemma MonthlySalesOrder(rows: seq<Order>)
    ensures forall i, j :: 0 <= i < j < |MonthlySales(rows)| ==>
      MonthLe(MonthlySales(rows)[i].key, MonthlySales(rows)[j].key) && MonthlySales(rows)[i].key != MonthlySales(rows)[j].key
    ensures forall m :: m in KeySet(MonthlySales(rows)) <==>
      exists r :: r in rows && r.orderDate.Some? && MonthOf(r.orderDate.value) == m
  {
    var m := MonthlySales(rows);
    SortGroups(GroupSums(rows, MonthKey()), ByMonth());
    ByMonthOrders();
    forall i, j | 0 <= i < j < |m| ensures MonthLe(m[i].key, m[j].key) && m[i].key != m[j].key {
      assert ByMonth()(m[i], m[j]);
    }
  }

  /**
   * Each month's entry holds the sales of the rows dated in that month; undated
   * rows are left out, so when every row is dated the series adds up to the overall sales.
   */
  lemma MonthlySalesSums(rows: seq<Order>)
    ensures forall e :: e in MonthlySales(rows) ==> e.sum == SumWhere(rows, MonthKey(), e.key)
    ensures Total(MonthlySales(rows)) == SumKeyed(rows, MonthKey())
    ensures (forall r :: r in rows ==> r.orderDate.Some?) ==> Total(MonthlySales(rows)) == SumTotal(rows)
  {
    SortGroups(GroupSums(rows, MonthKey()), ByMonth());
    GroupEntries(rows, MonthKey());
    if forall r :: r in rows ==> r.orderDate.Some? {
      SumKeyedAllSome(rows, MonthKey());
    }
  }

  /** The distinct values of an integer column (`nunique`). */
  function IdSet(rows: seq<Order>, id: Order -> int): (ids: set<int>)
    ensures forall x :: x in ids <==> exists r :: r in rows && id(r) == x
    ensures forall r :: r in rows ==> id(r) in ids
    ensures |ids| <= |rows|
    ensures rows == [] ==> ids == {}
    decreases |rows|
  {
    if rows == [] then {}
    else
      var init := rows[..|rows| - 1];
      var last := rows[|rows| - 1];
      assert rows == init + [last];
      IdSet(init, id) + {id(last)}
  }

  /** A column with a row has at least one distinct value. */
  lemma IdSetNonEmpty(rows: seq<Order>, id: Order -> int)
    ensures rows != [] ==> |IdSet(rows, id)| >= 1
  {
    if rows != [] {
      assert rows[0] in rows;
      var ids := IdSet(rows, id);
      assert id(rows[0]) in ids;
      assert ids != {};
    }
  }

  /** The three indicators at the top of the dashboard. */
  datatype Kpis = Kpis(sales: real, customers: nat, orders: nat)

  function CustomerId(): Order -> int {
    (r: Order) => r.custId
  }

  function OrderId(): Order -> int {
    (r: Order) => r.orderId
  }

  /**
   * Total sales, distinct customers and distinct orders: no more of either than
   * there are rows, at least one of each when there is a row, all zero when there is none.
   */
  function ComputeKpis(rows: seq<Order>): (k: Kpis)
    ensures k.customers <= |rows| && k.orders <= |rows|
    ensures rows != [] ==> k.customers >= 1 && k.orders >= 1
    ensures rows == [] ==> k == Kpis(0.0, 0, 0)
  {
    var customers := IdSet(rows, CustomerId());
    var orders := IdSet(rows, OrderId());
    IdSetNonEmpty(rows, CustomerId());
    IdSetNonEmpty(rows, OrderId());
    Kpis(SumTotal(rows), |customers|, |orders|)
  }

  /** The sales indicator equals the sum of the category bars. */
  lemma KpiSalesMatchCategories(rows: seq<Order>)
    ensures ComputeKpis(rows).sales == Total(SalesByCategory(rows))
  {
    ChartTotals(rows);
  }
}
