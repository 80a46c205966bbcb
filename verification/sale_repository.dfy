/** SaleRepository's five queries as functions over the sale table, kept in
    insertion order: the two derived finders, the profit and revenue sums
    over an inclusive date window, and the top-selling grouping. */
module SaleRepository {
  import opened Nullable
  import opened Entities
  import SaleService

  /** SQL BETWEEN: both bounds are inclusive, and a sale without a date is
      in no window. */
  predicate InWindow(s: Sale, start: int, end: int) {
    s.saleDate.Some? && start <= s.saleDate.value <= end
  }

  // ---------------------------------------------------------------------------
  // The derived finders
  // ---------------------------------------------------------------------------

  /** The sales `keep` accepts. */
  function Select(sales: seq<Sale>, keep: Sale -> bool): (r: seq<Sale>)
    ensures forall x :: x in r <==> x in sales && keep(x)
    ensures forall x :: multiset(r)[x] == if keep(x) then multiset(sales)[x] else 0
    ensures |r| <= |sales|
    decreases |sales|
  {
    if |sales| == 0 then []
    else
      assert sales == [sales[0]] + sales[1..];
      var rest := Select(sales[1..], keep);
      if keep(sales[0]) then [sales[0]] + rest else rest
  }

  /** findBySaleDateBetween: exactly the sales dated inside the window, each
      as often as it is stored. */
  function FindBySaleDateBetween(sales: seq<Sale>, start: int, end: int): (r: seq<Sale>)
    ensures forall x :: x in r <==> x in sales && InWindow(x, start, end)
    ensures forall x :: InWindow(x, start, end) ==> multiset(r)[x] == multiset(sales)[x]
  {
    Select(sales, x => InWindow(x, start, end))
  }

  /** findByFoodItemId: exactly the sales of that food item. */
  function FindByFoodItemId(sales: seq<Sale>, foodItemId: int): (r: seq<Sale>)
    ensures forall x :: x in r <==> x in sales && x.foodItemId == foodItemId
    ensures forall x: Sale :: x.foodItemId == foodItemId ==> multiset(r)[x] == multiset(sales)[x]
  {
    Select(sales, (x: Sale) => x.foodItemId == foodItemId)
  }

  // ---------------------------------------------------------------------------
  // Sums over a window
  // ---------------------------------------------------------------------------

  /** SUM(amount) over the sales in the window, with COALESCE(…, 0): an
      empty window sums to zero. */
  function WindowSum(sales: seq<Sale>, start: int, end: int, amount: Sale -> real): real
    decreases |sales|
  {
    if |sales| == 0 then 0.0
    else (if InWindow(sales[0], start, end) then amount(sales[0]) else 0.0) + WindowSum(sales[1..], start, end, amount)
  }

  /** SUM skips a null profit or cost. */
  function ProfitOf(s: Sale): real {
    s.profit.GetOr(0.0)
  }

  function CostOf(s: Sale): real {
    s.costOfIngredients.GetOr(0.0)
  }

  function RevenueOf(s: Sale): real {
    s.salePrice * s.quantitySold
  }

  /** The plain sum of `amount` over some rows, in order. */
  function Sum(rows: seq<Sale>, amount: Sale -> real): real
    decreases |rows|
  {
    if |rows| == 0 then 0.0 else amount(rows[0]) + Sum(rows[1..], amount)
  }

  /** calculateTotalProfit: SUM(profit) over the rows the BETWEEN filter
      selects, a null profit adding nothing, and 0 when no row is
      selected. */
  function TotalProfit(sales: seq<Sale>, start: int, end: int): (r: real)
    ensures r == Sum(FindBySaleDateBetween(sales, start, end), ProfitOf)
    ensures (forall i :: 0 <= i < |sales| ==> !InWindow(sales[i], start, end)) ==> r == 0.0
  {
    FoundSum(sales, start, end, ProfitOf);
    WindowSum(sales, start, end, ProfitOf)
  }

  /** calculateTotalRevenue: SUM(salePrice × quantitySold) over the rows
      the BETWEEN filter selects, and 0 when no row is selected. */
  function TotalRevenue(sales: seq<Sale>, start: int, end: int): (r: real)
    ensures r == Sum(FindBySaleDateBetween(sales, start, end), RevenueOf)
    ensures (forall i :: 0 <= i < |sales| ==> !InWindow(sales[i], start, end)) ==> r == 0.0
  {
    FoundSum(sales, start, end, RevenueOf);
    WindowSum(sales, start, end, RevenueOf)
  }

  /** The window's sum is the plain sum over findBySaleDateBetween's rows;
      a window no sale falls in selects no row. */
  lemma {:induction false} FoundSum(sales: seq<Sale>, start: int, end: int, amount: Sale -> real)
    ensures WindowSum(sales, start, end, amount) == Sum(FindBySaleDateBetween(sales, start, end), amount)
    ensures (forall i :: 0 <= i < |sales| ==> !InWindow(sales[i], start, end)) ==>
              FindBySaleDateBetween(sales, start, end) == []
    decreases |sales|
  {
    if |sales| > 0 {
      FoundSum(sales[1..], start, end, amount);
      var rest := FindBySaleDateBetween(sales[1..], start, end);
      if InWindow(sales[0], start, end) {
        assert FindBySaleDateBetween(sales, start, end) == [sales[0]] + rest;
        assert ([sales[0]] + rest)[1..] == rest;
      } else {
        assert FindBySaleDateBetween(sales, start, end) == rest;
        assert forall i :: 0 <= i < |sales| - 1 ==> sales[1..][i] == sales[i + 1];
      }
    }
  }

  /** The summed ingredient cost; no query computes it. */
  function TotalCost(sales: seq<Sale>, start: int, end: int): real {
    WindowSum(sales, start, end, CostOf)
  }

  /** A window no sale falls in sums to zero. */
  lemma {:induction false} EmptyWindowSum(sales: seq<Sale>, start: int, end: int, amount: Sale -> real)
    requires forall i :: 0 <= i < |sales| ==> !InWindow(sales[i], start, end)
    ensures WindowSum(sales, start, end, amount) == 0.0
    decreases |sales|
  {
    if |sales| > 0 {
      assert forall i :: 0 <= i < |sales| - 1 ==> sales[1..][i] == sales[i + 1];
      EmptyWindowSum(sales[1..], start, end, amount);
    }
  }

  /** Sums over a table split in two add up. */
  lemma {:induction false} WindowSumAppend(a: seq<Sale>, b: seq<Sale>, start: int, end: int, amount: Sale -> real)
    ensures WindowSum(a + b, start, end, amount) ==
            WindowSum(a, start, end, amount) + WindowSum(b, start, end, amount)
    decreases |a|
  {
    if |a| == 0 {
      assert a + b == b;
    } else {
      assert (a + b)[1..] == a[1..] + b;
      WindowSumAppend(a[1..], b, start, end, amount);
    }
  }

  /** Recording one more sale adds its amount when it is dated inside the
      window and nothing otherwise. */
  lemma RecordedSaleSum(sales: seq<Sale>, s: Sale, start: int, end: int, amount: Sale -> real)
    ensures WindowSum(sales + [s], start, end, amount) ==
            WindowSum(sales, start, end, amount) + (if InWindow(s, start, end) then amount(s) else 0.0)
  {
    WindowSumAppend(sales, [s], start, end, amount);
    assert [s][1..] == [];
  }

  /** Summing over findBySaleDateBetween's result gives the window's sum. */
  lemma {:induction false} WindowSumOfFound(sales: seq<Sale>, start: int, end: int, amount: Sale -> real)
    ensures WindowSum(Select(sales, x => InWindow(x, start, end)), start, end, amount) ==
            WindowSum(sales, start, end, amount)
    decreases |sales|
  {
    if |sales| > 0 {
      WindowSumOfFound(sales[1..], start, end, amount);
      var rest := Select(sales[1..], x => InWindow(x, start, end));
      if InWindow(sales[0], start, end) {
        assert ([sales[0]] + rest)[1..] == rest;
      }
    }
  }

  /** When every sale in the window was priced by createSale, revenue less
      profit is the summed ingredient cost. */
  lemma {:induction false} RevenueLessProfitIsCost(sales: seq<Sale>, start: int, end: int)
    requires forall i :: 0 <= i < |sales| && InWindow(sales[i], start, end) ==>
               SaleService.ServiceComputed(sales[i])
    ensures TotalRevenue(sales, start, end) - TotalProfit(sales, start, end) == TotalCost(sales, start, end)
  {
    PricedWindowSums(sales, start, end);
  }

  /** The identity above, over the window sums themselves. */
  lemma {:induction false} PricedWindowSums(sales: seq<Sale>, start: int, end: int)
    requires forall i :: 0 <= i < |sales| && InWindow(sales[i], start, end) ==>
               SaleService.ServiceComputed(sales[i])
    ensures WindowSum(sales, start, end, RevenueOf) - WindowSum(sales, start, end, ProfitOf) ==
            WindowSum(sales, start, end, CostOf)
    decreases |sales|
  {
    if |sales| > 0 {
      assert forall i :: 0 <= i < |sales| - 1 ==> sales[1..][i] == sales[i + 1];
      PricedWindowSums(sales[1..], start, end);
    }
  }

  /** A sale whose stored profit does not match its revenue and cost (as a
      row written without createSale can have) breaks that identity. */
  lemma UnpricedSaleBreaksCostIdentity()
    ensures var s := Sale(Some(1), 1, Some("Chocolate Cake"), 2.0, 150.0, Some(0), Some(5.0), Some(145.0));
            TotalRevenue([s], 0, 0) - TotalProfit([s], 0, 0) != TotalCost([s], 0, 0)
  {
    var s := Sale(Some(1), 1, Some("Chocolate Cake"), 2.0, 150.0, Some(0), Some(5.0), Some(145.0));
    assert [s][1..] == [];
    assert RevenueOf(s) == 300.0 && ProfitOf(s) == 5.0 && CostOf(s) == 145.0;
    assert TotalRevenue([s], 0, 0) == RevenueOf(s) + WindowSum([], 0, 0, RevenueOf);
    assert TotalProfit([s], 0, 0) == ProfitOf(s) + WindowSum([], 0, 0, ProfitOf);
    assert TotalCost([s], 0, 0) == CostOf(s) + WindowSum([], 0, 0, CostOf);
  }

  // ---------------------------------------------------------------------------
  // findTopSellingItems
  // ---------------------------------------------------------------------------

  /** One row of the grouping: the item's id and current name, and the
      quantity sold of it in the window. */
  datatype TopItem = TopItem(foodItemId: int, foodItemName: string, totalQuantity: real)

  /** No value occurs twice. */
  predicate Distinct(ids: seq<int>) {
    forall i, j :: 0 <= i < |ids| && 0 <= j < |ids| && ids[i] == ids[j] ==> i == j
  }

  /** A sale in the window whose food item the join finds. */
  predicate Grouped(s: Sale, start: int, end: int, items: map<int, FoodItem>) {
    InWindow(s, start, end) && s.foodItemId in items
  }

  /** The groups: each food item with a sale in the window, once. The
      path s.foodItem.name is an inner join, so a sale whose item is gone
      forms no group. */
  function SoldItems(sales: seq<Sale>, start: int, end: int, items: map<int, FoodItem>): (r: seq<int>)
    ensures forall k :: k in r <==>
              exists i :: 0 <= i < |sales| && Grouped(sales[i], start, end, items) && sales[i].foodItemId == k
    ensures forall k :: k in r ==> k in items
    ensures Distinct(r)
    decreases |sales|
  {
    if |sales| == 0 then []
    else
      var rest := SoldItems(sales[1..], start, end, items);
      assert forall i :: 1 <= i < |sales| ==> sales[i] == sales[1..][i - 1];
      var k := sales[0].foodItemId;
      if Grouped(sales[0], start, end, items) && k !in rest then [k] + rest else rest
  }

  /** SUM(quantitySold) over the window's sales of item `k`. */
  function QuantitySold(sales: seq<Sale>, start: int, end: int, k: int): real {
    WindowSum(sales, start, end, (x: Sale) => if x.foodItemId == k then x.quantitySold else 0.0)
  }

  /** The group rows before ordering. */
  function GroupRows(sales: seq<Sale>, start: int, end: int, items: map<int, FoodItem>): (r: seq<TopItem>)
    ensures |r| == |SoldItems(sales, start, end, items)|
    ensures forall i :: 0 <= i < |r| ==> r[i].foodItemId == SoldItems(sales, start, end, items)[i]
    ensures forall i :: 0 <= i < |r| ==> r[i].foodItemId in items && r[i] == Row(sales, start, end, items, r[i].foodItemId)
  {
    var ids := SoldItems(sales, start, end, items);
    seq(|ids|, i requires 0 <= i < |ids| => Row(sales, start, end, items, ids[i]))
  }

  /** The row the grouping produces for item `k`. */
  function Row(sales: seq<Sale>, start: int, end: int, items: map<int, FoodItem>, k: int): (row: TopItem)
    requires k in items
    ensures row.foodItemId == k
  {
    TopItem(k, items[k].name, QuantitySold(sales, start, end, k))
  }

  /** ORDER BY totalQuantity DESC. */
  predicate SortedDesc(rows: seq<TopItem>) {
    forall i, j :: 0 <= i < j < |rows| ==> rows[i].totalQuantity >= rows[j].totalQuantity
  }

  /** One step of insertion sort: `row` goes before the first row with a
      smaller quantity. */
  function Insert(row: TopItem, rows: seq<TopItem>): seq<TopItem>
    decreases |rows|
  {
    if |rows| == 0 then [row]
    else if row.totalQuantity >= rows[0].totalQuantity then [row] + rows
    else [rows[0]] + Insert(row, rows[1..])
  }

  lemma {:induction false} InsertPermutes(row: TopItem, rows: seq<TopItem>)
    ensures multiset(Insert(row, rows)) == multiset(rows) + multiset{row}
    decreases |rows|
  {
    if |rows| > 0 && row.totalQuantity < rows[0].totalQuantity {
      assert rows == [rows[0]] + rows[1..];
      InsertPermutes(row, rows[1..]);
    }
  }

  lemma {:induction false} InsertSorted(row: TopItem, rows: seq<TopItem>)
    requires SortedDesc(rows)
    ensures SortedDesc(Insert(row, rows))
    decreases |rows|
  {
    if |rows| > 0 && row.totalQuantity < rows[0].totalQuantity {
      var tail := rows[1..];
      var rest := Insert(row, tail);
      InsertSorted(row, tail);
      InsertPermutes(row, tail);
      forall j | 0 <= j < |rest| ensures rows[0].totalQuantity >= rest[j].totalQuantity {
        assert rest[j] in multiset(rest);
        if rest[j] != row {
          assert rest[j] in multiset(tail);
          var k :| 0 <= k < |tail| && tail[k] == rest[j];
          assert rows[k + 1] == rest[j];
        }
      }
      var r := [rows[0]] + rest;
      forall i, j | 0 <= i < j < |r| ensures r[i].totalQuantity >= r[j].totalQuantity {
        assert r[j] == rest[j - 1];
        if i > 0 {
          assert r[i] == rest[i - 1];
        }
      }
    }
  }

  /** Insertion sort, largest quantity first. */
  function SortDesc(rows: seq<TopItem>): (r: seq<TopItem>)
    ensures SortedDesc(r)
    ensures multiset(r) == multiset(rows)
    decreases |rows|
  {
    if |rows| == 0 then []
    else
      assert rows == [rows[0]] + rows[1..];
      var rest := SortDesc(rows[1..]);
      InsertSorted(rows[0], rest);
      InsertPermutes(rows[0], rest);
      Insert(rows[0], rest)
  }

  /** findTopSellingItems: the group rows, largest quantity first. Ties
      come in no order the query fixes; here, an arbitrary one. */
  function FindTopSellingItems(sales: seq<Sale>, start: int, end: int, items: map<int, FoodItem>)
    : (r: seq<TopItem>)
    ensures SortedDesc(r)
    ensures multiset(r) == multiset(GroupRows(sales, start, end, items))
  {
    SortDesc(GroupRows(sales, start, end, items))
  }

  /** Some row is item `k`'s. */
  predicate HasRow(rows: seq<TopItem>, k: int) {
    exists i :: 0 <= i < |rows| && rows[i].foodItemId == k
  }

  /** Some sale of item `k` is in the window and joins with its item. */
  predicate SoldIn(sales: seq<Sale>, start: int, end: int, items: map<int, FoodItem>, k: int) {
    exists j :: 0 <= j < |sales| && Grouped(sales[j], start, end, items) && sales[j].foodItemId == k
  }

  /** Every top-selling row carries its item's current name and the
      quantity of it sold in the window. */
  lemma TopRowsCorrect(sales: seq<Sale>, start: int, end: int, items: map<int, FoodItem>)
    ensures var r := FindTopSellingItems(sales, start, end, items);
            forall i :: 0 <= i < |r| ==>
              && r[i].foodItemId in items
              && r[i].foodItemName == items[r[i].foodItemId].name
              && r[i].totalQuantity == QuantitySold(sales, start, end, r[i].foodItemId)
  {
    var r := FindTopSellingItems(sales, start, end, items);
    var g := GroupRows(sales, start, end, items);
    forall i | 0 <= i < |r|
      ensures r[i].foodItemId in items && r[i] == Row(sales, start, end, items, r[i].foodItemId)
    {
      assert r[i] in multiset(g);
    }
  }

  /** There is a top-selling row for an item exactly when the item sold in
      the window. */
  lemma TopRowsCover(sales: seq<Sale>, start: int, end: int, items: map<int, FoodItem>)
    ensures var r := FindTopSellingItems(sales, start, end, items);
            forall k :: HasRow(r, k) <==> SoldIn(sales, start, end, items, k)
  {
    var r := FindTopSellingItems(sales, start, end, items);
    var g := GroupRows(sales, start, end, items);
    var ids := SoldItems(sales, start, end, items);
    forall k ensures HasRow(r, k) <==> SoldIn(sales, start, end, items, k) {
      if HasRow(r, k) {
        var i :| 0 <= i < |r| && r[i].foodItemId == k;
        assert r[i] in multiset(g);
        var p :| 0 <= p < |g| && g[p] == r[i];
        assert ids[p] == k;
        assert k in ids;
      }
      if SoldIn(sales, start, end, items, k) {
        assert k in ids;
        var p :| 0 <= p < |ids| && ids[p] == k;
        assert g[p] in multiset(r);
        var i :| 0 <= i < |r| && r[i] == g[p];
        assert r[i].foodItemId == k;
      }
    }
  }

  /** No item has two top-selling rows. */
  lemma TopRowsDistinct(sales: seq<Sale>, start: int, end: int, items: map<int, FoodItem>)
    ensures var r := FindTopSellingItems(sales, start, end, items);
            forall i, j :: 0 <= i < |r| && 0 <= j < |r| && r[i].foodItemId == r[j].foodItemId ==> i == j
  {
    var r := FindTopSellingItems(sales, start, end, items);
    var g := GroupRows(sales, start, end, items);
    var ids := SoldItems(sales, start, end, items);
    TopRowsCorrect(sales, start, end, items);
    forall i, j | 0 <= i < |r| && 0 <= j < |r| && r[i].foodItemId == r[j].foodItemId
      ensures i == j
    {
      if i != j {
        TwiceCounted(r, i, j);
        OnceCounted(g, ids, r[i]);
        assert false;
      }
    }
  }

  /** An element at two positions is counted at least twice. */
  lemma TwiceCounted(r: seq<TopItem>, i: int, j: int)
    requires 0 <= i < |r| && 0 <= j < |r| && i != j && r[i] == r[j]
    ensures multiset(r)[r[i]] >= 2
  {
    var lo, hi := if i < j then i else j, if i < j then j else i;
    assert r == r[..hi] + [r[hi]] + r[hi + 1..];
    assert r[lo] in r[..hi];
  }

  /** Rows carrying distinct ids are each counted once. */
  lemma {:induction false} OnceCounted(g: seq<TopItem>, ids: seq<int>, x: TopItem)
    requires |g| == |ids| && Distinct(ids)
    requires forall i :: 0 <= i < |g| ==> g[i].foodItemId == ids[i]
    ensures multiset(g)[x] <= 1
    decreases |g|
  {
    if |g| > 0 {
      assert g == [g[0]] + g[1..];
      assert Distinct(ids[1..]) by {
        forall i, j | 0 <= i < |ids[1..]| && 0 <= j < |ids[1..]| && ids[1..][i] == ids[1..][j]
          ensures i == j
        {
          assert ids[i + 1] == ids[j + 1];
        }
      }
      OnceCounted(g[1..], ids[1..], x);
      if x == g[0] {
        assert x !in g[1..] by {
          forall i | 0 <= i < |g[1..]| ensures g[1..][i] != x {
            assert ids[i + 1] != ids[0];
          }
        }
      }
    }
  }

  /** Three sales built to produce the two rows ReportServiceImplTest's
      top-items case mocks: run through the query, they rank the cake (50)
      above the cupcake (30). */
  lemma TopSellingExample()
    ensures var cake := FoodItem(Some(1), "Chocolate Cake", 150.0, []);
            var cupcake := FoodItem(Some(2), "Vanilla Cupcake", 40.0, []);
            var sales := [Sale(Some(1), 2, None, 30.0, 40.0, Some(5), None, None),
                          Sale(Some(2), 1, None, 20.0, 150.0, Some(6), None, None),
                          Sale(Some(3), 1, None, 30.0, 150.0, Some(7), None, None)];
            FindTopSellingItems(sales, 0, 10, map[1 := cake, 2 := cupcake]) ==
            [TopItem(1, "Chocolate Cake", 50.0), TopItem(2, "Vanilla Cupcake", 30.0)]
  {
    var cake := FoodItem(Some(1), "Chocolate Cake", 150.0, []);
    var cupcake := FoodItem(Some(2), "Vanilla Cupcake", 40.0, []);
    var sales := [Sale(Some(1), 2, None, 30.0, 40.0, Some(5), None, None),
                  Sale(Some(2), 1, None, 20.0, 150.0, Some(6), None, None),
                  Sale(Some(3), 1, None, 30.0, 150.0, Some(7), None, None)];
    var items := map[1 := cake, 2 := cupcake];
    assert sales[1..][1..][1..] == [];
    assert SoldItems(sales, 0, 10, items) == [2, 1];
    assert QuantitySold(sales, 0, 10, 1) == 50.0;
    assert QuantitySold(sales, 0, 10, 2) == 30.0;
    var g := GroupRows(sales, 0, 10, items);
    assert g == [TopItem(2, "Vanilla Cupcake", 30.0), TopItem(1, "Chocolate Cake", 50.0)];
    assert g[1..] == [TopItem(1, "Chocolate Cake", 50.0)];
  }
}
