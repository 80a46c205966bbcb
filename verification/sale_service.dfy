/** SaleServiceImpl: recording a sale checks its two amounts, resolves the
    food item and its recipe, dates the sale, deducts every recipe line's
    requirement from stock in recipe order while summing the ingredient
    cost, and stores the sale with its cost and profit. The whole call is
    one transaction: an insufficient-stock failure on any line undoes the
    deductions already made and stores no sale. */
module SaleService {
  import opened Nullable
  import opened Failures
  import opened Entities
  import MaterialService
  import FoodItemService

  /** The three tables a sale touches, and the sale table's next identity
      value. Sales are kept in insertion order. */
  datatype Db = Db(
    materials: MaterialService.Store,
    foodItems: FoodItemService.Store,
    sales: seq<Sale>,
    nextSaleId: int)
  {
    ghost predicate Valid() {
      && materials.Valid()
      && foodItems.Valid()
      && (forall i :: 0 <= i < |sales| ==> sales[i].id.Some? && sales[i].id.value < nextSaleId)
      && (forall i, i' :: 0 <= i < |sales| && 0 <= i' < |sales| && sales[i].id == sales[i'].id ==> i == i')
    }
  }

  // ---------------------------------------------------------------------------
  // Reference definitions: what a recipe asks of the material table
  // ---------------------------------------------------------------------------

  /** The total that `lines` ask of material `k` for `n` servings. */
  function Demand(lines: seq<Ingredient>, k: int, n: real): real
    decreases |lines|
  {
    if |lines| == 0 then 0.0
    else (if lines[0].materialId == k then lines[0].quantityRequired * n else 0.0) + Demand(lines[1..], k, n)
  }

  /** Every material the recipe names is stored and holds at least the
      recipe's summed requirement. */
  ghost predicate Feasible(rows: map<int, Material>, lines: seq<Ingredient>, n: real) {
    forall i :: 0 <= i < |lines| ==>
      lines[i].materialId in rows && Demand(lines, lines[i].materialId, n) <= rows[lines[i].materialId].quantity
  }

  /** The table with every material's summed requirement taken off at once. */
  function ApplyDemand(rows: map<int, Material>, lines: seq<Ingredient>, n: real): map<int, Material> {
    map k | k in rows :: rows[k].(quantity := rows[k].quantity - Demand(lines, k, n))
  }

  /** The cost of `n` servings at the table's unit prices. */
  function IngredientCost(rows: map<int, Material>, lines: seq<Ingredient>, n: real): real
    requires forall i :: 0 <= i < |lines| ==> lines[i].materialId in rows
    decreases |lines|
  {
    if |lines| == 0 then 0.0
    else rows[lines[0].materialId].pricePerUnit * (lines[0].quantityRequired * n) + IngredientCost(rows, lines[1..], n)
  }

  /** Every recipe line requires a non-negative quantity. */
  predicate NonNegativeLines(lines: seq<Ingredient>) {
    forall i :: 0 <= i < |lines| ==> lines[i].quantityRequired >= 0.0
  }

  // ---------------------------------------------------------------------------
  // The deduction loop
  // ---------------------------------------------------------------------------

  /** The deductions of createSale's loop over the recipe: each line takes
      quantityRequired × n off its material through the guarded deduction,
      stopping at the first failure. The loop's running cost is
      IngredientCost, read off the table the deductions leave. */
  function Consume(rows: map<int, Material>, lines: seq<Ingredient>, n: real): (r: Result<map<int, Material>>)
    ensures r.Ok? ==> forall i :: 0 <= i < |lines| ==> lines[i].materialId in rows
    ensures r.Ok? ==> r.value.Keys == rows.Keys
    ensures r.Ok? && MaterialService.NonNegativeStock(rows) ==> MaterialService.NonNegativeStock(r.value)
    ensures r.Err? ==> r.error.MaterialNotFound? || r.error.InsufficientStock?
    decreases |lines|
  {
    if |lines| == 0 then Ok(rows)
    else
      var line := lines[0];
      match MaterialService.Deduct(rows, line.materialId, line.quantityRequired * n)
      case Err(e) => Err(e)
      case Ok(deducted) =>
        var r := Consume(deducted, lines[1..], n);
        assert forall i :: 1 <= i < |lines| ==> lines[i] == lines[1..][i - 1];
        r
  }

  /** The materials a recipe names. */
  function Ids(lines: seq<Ingredient>): (r: set<int>)
    ensures forall k :: k in r <==> exists i :: 0 <= i < |lines| && lines[i].materialId == k
  {
    set i | 0 <= i < |lines| :: lines[i].materialId
  }

  /** A recipe that does not name `k` asks nothing of it. */
  lemma {:induction false} DemandOfUnnamed(lines: seq<Ingredient>, k: int, n: real)
    requires k !in Ids(lines)
    ensures Demand(lines, k, n) == 0.0
    decreases |lines|
  {
    if |lines| > 0 {
      assert k !in Ids(lines[1..]) by {
        forall i | 0 <= i < |lines[1..]| ensures lines[1..][i].materialId != k {
          assert lines[1..][i] == lines[i + 1];
        }
      }
      DemandOfUnnamed(lines[1..], k, n);
    }
  }

  /** With non-negative lines and servings, no demand is negative. */
  lemma {:induction false} DemandNonNegative(lines: seq<Ingredient>, k: int, n: real)
    requires NonNegativeLines(lines) && n >= 0.0
    ensures Demand(lines, k, n) >= 0.0
    decreases |lines|
  {
    if |lines| > 0 {
      assert NonNegativeLines(lines[1..]) by {
        forall i | 0 <= i < |lines[1..]| ensures lines[1..][i].quantityRequired >= 0.0 {
          assert lines[1..][i] == lines[i + 1];
        }
      }
      DemandNonNegative(lines[1..], k, n);
    }
  }

  /** One turn of the loop: the first line's deduction went through and
      the rest of the loop ran on the table it left. */
  lemma ConsumeStep(rows: map<int, Material>, lines: seq<Ingredient>, n: real)
    returns (deducted: map<int, Material>)
    requires |lines| > 0 && Consume(rows, lines, n).Ok?
    ensures lines[0].materialId in rows
    ensures rows[lines[0].materialId].quantity - lines[0].quantityRequired * n >= 0.0
    ensures deducted == rows[lines[0].materialId := rows[lines[0].materialId].(
              quantity := rows[lines[0].materialId].quantity - lines[0].quantityRequired * n)]
    ensures Consume(rows, lines, n) == Consume(deducted, lines[1..], n)
  {
    deducted := MaterialService.Deduct(rows, lines[0].materialId, lines[0].quantityRequired * n).value;
  }

  /** The loop goes through when its first deduction does and the rest of
      the loop goes through on the table that deduction leaves. */
  lemma ConsumeUnstep(rows: map<int, Material>, lines: seq<Ingredient>, n: real)
    requires |lines| > 0
    requires MaterialService.Deduct(rows, lines[0].materialId, lines[0].quantityRequired * n).Ok?
    requires Consume(MaterialService.Deduct(rows, lines[0].materialId, lines[0].quantityRequired * n).value,
                     lines[1..], n).Ok?
    ensures Consume(rows, lines, n).Ok?
  {
  }

  /** Demand splits into the first line's share and the rest's. */
  lemma DemandStep(lines: seq<Ingredient>, k: int, n: real)
    requires |lines| > 0
    ensures Demand(lines, k, n) ==
            (if lines[0].materialId == k then lines[0].quantityRequired * n else 0.0) + Demand(lines[1..], k, n)
  {
  }

  /** Soundness of the loop, for any recipe: when every deduction goes
      through, the recipe was feasible and the table ends up with each
      material's summed requirement taken off. */
  lemma {:induction false} ConsumeSound(rows: map<int, Material>, lines: seq<Ingredient>, n: real)
    requires Consume(rows, lines, n).Ok?
    ensures Feasible(rows, lines, n)
    ensures Consume(rows, lines, n).value == ApplyDemand(rows, lines, n)
    decreases |lines|
  {
    if |lines| == 0 {
      assert ApplyDemand(rows, lines, n) == rows;
    } else {
      var deducted := ConsumeStep(rows, lines, n);
      ConsumeSound(deducted, lines[1..], n);
      SoundFeasible(rows, deducted, lines, n);
      SoundTable(rows, deducted, lines, n);
    }
  }

  /** The first deduction and a feasible rest make the whole recipe feasible. */
  lemma SoundFeasible(rows: map<int, Material>, deducted: map<int, Material>, lines: seq<Ingredient>, n: real)
    requires |lines| > 0
    requires var k := lines[0].materialId;
             var need := lines[0].quantityRequired * n;
             && k in rows && rows[k].quantity - need >= 0.0
             && deducted == rows[k := rows[k].(quantity := rows[k].quantity - need)]
    requires Feasible(deducted, lines[1..], n)
    ensures Feasible(rows, lines, n)
  {
    var k := lines[0].materialId;
    var tail := lines[1..];
    forall i | 0 <= i < |lines|
      ensures lines[i].materialId in rows && Demand(lines, lines[i].materialId, n) <= rows[lines[i].materialId].quantity
    {
      var k' := lines[i].materialId;
      DemandStep(lines, k', n);
      if k' == k && k !in Ids(tail) {
        DemandOfUnnamed(tail, k, n);
      } else if k' == k {
        var j :| 0 <= j < |tail| && tail[j].materialId == k;
      } else {
        assert tail[i - 1] == lines[i];
      }
    }
  }

  /** The first deduction followed by the rest's summed deductions is the
      whole recipe's summed deductions. */
  lemma SoundTable(rows: map<int, Material>, deducted: map<int, Material>, lines: seq<Ingredient>, n: real)
    requires |lines| > 0
    requires var k := lines[0].materialId;
             var need := lines[0].quantityRequired * n;
             && k in rows
             && deducted == rows[k := rows[k].(quantity := rows[k].quantity - need)]
    ensures ApplyDemand(deducted, lines[1..], n) == ApplyDemand(rows, lines, n)
  {
    forall k' | k' in rows
      ensures ApplyDemand(deducted, lines[1..], n)[k'] == ApplyDemand(rows, lines, n)[k']
    {
      DemandStep(lines, k', n);
    }
  }

  /** The cost depends only on the unit prices. */
  lemma {:induction false} CostAtSamePrices(a: map<int, Material>, b: map<int, Material>, lines: seq<Ingredient>, n: real)
    requires forall i :: 0 <= i < |lines| ==> lines[i].materialId in a && lines[i].materialId in b
    requires forall k :: k in a && k in b ==> a[k].pricePerUnit == b[k].pricePerUnit
    ensures IngredientCost(a, lines, n) == IngredientCost(b, lines, n)
    decreases |lines|
  {
    if |lines| > 0 {
      assert forall i :: 1 <= i < |lines| ==> lines[i] == lines[1..][i - 1];
      CostAtSamePrices(a, b, lines[1..], n);
    }
  }

  /** Completeness of the loop, for recipes without negative lines: a
      feasible recipe goes through. */
  lemma {:induction false} ConsumeComplete(rows: map<int, Material>, lines: seq<Ingredient>, n: real)
    requires NonNegativeLines(lines) && n > 0.0
    requires Feasible(rows, lines, n)
    ensures Consume(rows, lines, n).Ok?
    decreases |lines|
  {
    if |lines| > 0 {
      var k := lines[0].materialId;
      var need := lines[0].quantityRequired * n;
      FirstFits(rows, lines, n);
      var deducted := rows[k := rows[k].(quantity := rows[k].quantity - need)];
      RestFeasible(rows, deducted, lines, n);
      ConsumeComplete(deducted, lines[1..], n);
      ConsumeUnstep(rows, lines, n);
    }
  }

  /** In a feasible recipe without negative lines the first deduction fits. */
  lemma FirstFits(rows: map<int, Material>, lines: seq<Ingredient>, n: real)
    requires |lines| > 0
    requires NonNegativeLines(lines) && n > 0.0
    requires Feasible(rows, lines, n)
    ensures lines[0].materialId in rows
    ensures rows[lines[0].materialId].quantity - lines[0].quantityRequired * n >= 0.0
  {
    var tail := lines[1..];
    assert NonNegativeLines(tail) by {
      assert forall i :: 0 <= i < |tail| ==> tail[i] == lines[i + 1];
    }
    DemandNonNegative(tail, lines[0].materialId, n);
    DemandStep(lines, lines[0].materialId, n);
  }

  /** After a fitting first deduction, what the recipe's other lines ask
      still fits. */
  lemma RestFeasible(rows: map<int, Material>, deducted: map<int, Material>, lines: seq<Ingredient>, n: real)
    requires |lines| > 0
    requires Feasible(rows, lines, n)
    requires var k := lines[0].materialId;
             k in rows && deducted == rows[k := rows[k].(quantity := rows[k].quantity - lines[0].quantityRequired * n)]
    ensures Feasible(deducted, lines[1..], n)
    ensures NonNegativeLines(lines) ==> NonNegativeLines(lines[1..])
  {
    var tail := lines[1..];
    forall j | 0 <= j < |tail|
      ensures tail[j].materialId in deducted &&
              Demand(tail, tail[j].materialId, n) <= deducted[tail[j].materialId].quantity
    {
      assert tail[j] == lines[j + 1];
      DemandStep(lines, tail[j].materialId, n);
    }
    assert forall i :: 0 <= i < |tail| ==> tail[i] == lines[i + 1];
  }

  /** Without the non-negativity hypothesis completeness fails: a recipe
      whose later line gives stock back is feasible in total, yet its first
      deduction is refused. */
  lemma NegativeLineBreaksCompleteness()
    ensures var rows := map[1 := Material(Some(1), "Flour", "kg", 50.0, 1.0, 0)];
            var lines := [Ingredient(Some(1), Some(1), 1, Some("Flour"), 2.0),
                          Ingredient(Some(2), Some(1), 1, Some("Flour"), -1.0)];
            Feasible(rows, lines, 1.0) && Consume(rows, lines, 1.0) == Err(InsufficientStock("Flour", 1.0, 2.0))
  {
    var rows := map[1 := Material(Some(1), "Flour", "kg", 50.0, 1.0, 0)];
    var lines := [Ingredient(Some(1), Some(1), 1, Some("Flour"), 2.0),
                  Ingredient(Some(2), Some(1), 1, Some("Flour"), -1.0)];
    assert Demand(lines[1..], 1, 1.0) == -1.0;
    assert Demand(lines, 1, 1.0) == 1.0;
  }

  // ---------------------------------------------------------------------------
  // The service
  // ---------------------------------------------------------------------------

  /** A sale whose profit is its revenue less its ingredient cost, both stored. */
  predicate ServiceComputed(s: Sale) {
    s.costOfIngredients.Some? && s.profit == Some(s.salePrice * s.quantitySold - s.costOfIngredients.value)
  }

  /** getSaleById: the stored sale with that id, or "Sale not found". */
  function GetSaleById(db: Db, id: int): (r: Result<Sale>)
    ensures r.Ok? <==> exists i :: 0 <= i < |db.sales| && db.sales[i].id == Some(id)
    ensures r.Ok? ==> r.value in db.sales && r.value.id == Some(id)
    ensures r.Err? ==> r.error == SaleNotFound(id)
  {
    FindSale(db.sales, id)
  }

  function FindSale(sales: seq<Sale>, id: int): (r: Result<Sale>)
    ensures r.Ok? <==> exists i :: 0 <= i < |sales| && sales[i].id == Some(id)
    ensures r.Ok? ==> r.value in sales && r.value.id == Some(id)
    ensures r.Err? ==> r.error == SaleNotFound(id)
    decreases |sales|
  {
    if |sales| == 0 then Err(SaleNotFound(id))
    else if sales[0].id == Some(id) then Ok(sales[0])
    else
      var r := FindSale(sales[1..], id);
      assert forall i :: 1 <= i < |sales| ==> sales[i] == sales[1..][i - 1];
      r
  }

  /** What a recorded sale leaves behind: the recipe of `item` was
      feasible; every material lost its summed requirement and nothing else
      changed in the material and food item tables; exactly one sale was
      appended under the next id, carrying the item's name, the date, the
      ingredient cost at the stored unit prices, and revenue less that cost
      as its profit. */
  ghost predicate Recorded(db: Db, sale: Sale, item: FoodItem, date: int, after: Db, stored: Sale) {
    && Feasible(db.materials.rows, item.ingredients, sale.quantitySold)
    && after.materials.rows == ApplyDemand(db.materials.rows, item.ingredients, sale.quantitySold)
    && after.materials.nextId == db.materials.nextId
    && after.foodItems == db.foodItems
    && after.sales == db.sales + [stored]
    && after.nextSaleId > db.nextSaleId
    && stored.id == Some(db.nextSaleId)
    && stored.foodItemId == sale.foodItemId
    && stored.foodItemName == Some(item.name)
    && stored.quantitySold == sale.quantitySold && stored.salePrice == sale.salePrice
    && stored.saleDate == Some(date)
    && stored.costOfIngredients == Some(IngredientCost(db.materials.rows, item.ingredients, sale.quantitySold))
    && ServiceComputed(stored)
  }

  /** The end of createSale once every deduction went through: price the
      sale from the running cost and store it. */
  function StoreSale(db: Db, sale: Sale, item: FoodItem, rows: map<int, Material>, date: int): (r: (Db, Sale))
    requires Consume(db.materials.rows, item.ingredients, sale.quantitySold) == Ok(rows)
    ensures Recorded(db, sale, item, date, r.0, r.1)
    ensures MaterialService.NonNegativeStock(db.materials.rows) ==> MaterialService.NonNegativeStock(r.0.materials.rows)
    ensures db.Valid() ==> r.0.Valid()
  {
    ConsumeSound(db.materials.rows, item.ingredients, sale.quantitySold);
    var cost := IngredientCost(rows, item.ingredients, sale.quantitySold);
    assert cost == IngredientCost(db.materials.rows, item.ingredients, sale.quantitySold) by {
      CostAtSamePrices(rows, db.materials.rows, item.ingredients, sale.quantitySold);
    }
    var profit := sale.salePrice * sale.quantitySold - cost;
    var stored := sale.(id := Some(db.nextSaleId), foodItemName := Some(item.name), saleDate := Some(date),
                        costOfIngredients := Some(cost), profit := Some(profit));
    assert ServiceComputed(stored) by {
      assert stored.salePrice == sale.salePrice && stored.quantitySold == sale.quantitySold;
      assert stored.salePrice * stored.quantitySold == sale.salePrice * sale.quantitySold;
      assert stored.costOfIngredients == Some(cost);
      assert stored.profit == Some(profit);
    }
    var after := db.(materials := db.materials.(rows := rows), sales := db.sales + [stored],
                     nextSaleId := db.nextSaleId + 1);
    assert db.Valid() ==> after.Valid() by {
      if db.Valid() {
        RecordValid(db, db.materials.(rows := rows), stored, after);
      }
    }
    (after, stored)
  }

  /** Appending a sale under the next sale id, with the material table
      still valid, keeps the database valid. */
  lemma RecordValid(db: Db, materials: MaterialService.Store, stored: Sale, after: Db)
    requires db.Valid()
    requires materials.Valid()
    requires stored.id == Some(db.nextSaleId)
    requires after == db.(materials := materials, sales := db.sales + [stored], nextSaleId := db.nextSaleId + 1)
    ensures after.Valid()
  {
    assert forall i :: 0 <= i < |db.sales| ==> after.sales[i] == db.sales[i];
  }

  /** createSale. `now` stands for the clock read when the sale carries no
      date. The caller's id, name, profit and cost are not kept. */
  function CreateSale(db: Db, sale: Sale, now: int): (t: Tx<Db, Sale>)
    ensures t.result.Err? ==> t.state == db
    ensures sale.quantitySold <= 0.0 ==> t.result == Err(QuantitySoldNotPositive)
    ensures sale.quantitySold > 0.0 && sale.salePrice <= 0.0 ==> t.result == Err(SalePriceNotPositive)
    ensures sale.quantitySold > 0.0 && sale.salePrice > 0.0 && sale.foodItemId !in db.foodItems.items ==>
              t.result == Err(FoodItemNotFound(sale.foodItemId))
    ensures t.result.Ok? ==>
              && sale.foodItemId in db.foodItems.items
              && Recorded(db, sale, db.foodItems.items[sale.foodItemId], sale.saleDate.GetOr(now),
                          t.state, t.result.value)
    ensures t.result.Ok? && MaterialService.NonNegativeStock(db.materials.rows) ==>
              MaterialService.NonNegativeStock(t.state.materials.rows)
    ensures db.Valid() ==> t.state.Valid()
  {
    if sale.quantitySold <= 0.0 then Commit(db, Err(QuantitySoldNotPositive))
    else if sale.salePrice <= 0.0 then Commit(db, Err(SalePriceNotPositive))
    else
      match FoodItemService.GetFoodItemById(db.foodItems, sale.foodItemId)
      case Err(e) => Commit(db, Err(e))
      case Ok(item) =>
        match Consume(db.materials.rows, item.ingredients, sale.quantitySold)
        case Err(e) => Commit(db, Err(e))
        case Ok(rows) => Commit(db, Ok(StoreSale(db, sale, item, rows, sale.saleDate.GetOr(now))))
  }

  /** The headline: for a recipe without negative lines, recording a sale
      succeeds exactly when both amounts are positive, the food item exists
      and every material holds the recipe's summed requirement. */
  lemma CreateSaleSucceedsIff(db: Db, sale: Sale, now: int)
    requires sale.foodItemId in db.foodItems.items ==>
               NonNegativeLines(db.foodItems.items[sale.foodItemId].ingredients)
    ensures CreateSale(db, sale, now).result.Ok? <==>
              && sale.quantitySold > 0.0
              && sale.salePrice > 0.0
              && sale.foodItemId in db.foodItems.items
              && Feasible(db.materials.rows, db.foodItems.items[sale.foodItemId].ingredients, sale.quantitySold)
  {
    if && sale.quantitySold > 0.0 && sale.salePrice > 0.0 && sale.foodItemId in db.foodItems.items
       && Feasible(db.materials.rows, db.foodItems.items[sale.foodItemId].ingredients, sale.quantitySold)
    {
      ConsumeComplete(db.materials.rows, db.foodItems.items[sale.foodItemId].ingredients, sale.quantitySold);
    }
  }

  /** The sale createSale stores is the one getSaleById then finds under
      its id. */
  lemma CreateThenGet(db: Db, sale: Sale, now: int)
    requires db.Valid()
    requires CreateSale(db, sale, now).result.Ok?
    ensures var t := CreateSale(db, sale, now);
            GetSaleById(t.state, db.nextSaleId) == Ok(t.result.value)
  {
    var t := CreateSale(db, sale, now);
    var sales := t.state.sales;
    var found := GetSaleById(t.state, db.nextSaleId);
    assert sales[|db.sales|] == t.result.value;
    assert found.Ok?;
    var j :| 0 <= j < |sales| && sales[j] == found.value;
    assert j == |db.sales|;
  }

  /** A sale leaves every material its recipe does not name as it was. */
  lemma CreateSaleLeavesOtherMaterials(db: Db, sale: Sale, now: int, k: int)
    requires CreateSale(db, sale, now).result.Ok?
    requires sale.foodItemId in db.foodItems.items
    requires k in db.materials.rows && k !in Ids(db.foodItems.items[sale.foodItemId].ingredients)
    ensures k in CreateSale(db, sale, now).state.materials.rows
    ensures CreateSale(db, sale, now).state.materials.rows[k] == db.materials.rows[k]
  {
    var lines := db.foodItems.items[sale.foodItemId].ingredients;
    DemandOfUnnamed(lines, k, sale.quantitySold);
    assert ApplyDemand(db.materials.rows, lines, sale.quantitySold)[k] == db.materials.rows[k];
  }

  // ---------------------------------------------------------------------------
  // The sale table's food_item_id foreign key
  // ---------------------------------------------------------------------------

  /** The food item ids the recorded sales point at. */
  function ItemsSold(sales: seq<Sale>): (r: set<int>)
    ensures forall i :: 0 <= i < |sales| ==> sales[i].foodItemId in r
    ensures forall k :: k in r ==> exists i :: 0 <= i < |sales| && sales[i].foodItemId == k
  {
    set i | 0 <= i < |sales| :: sales[i].foodItemId
  }

  /** Every recorded sale points at a stored food item. */
  ghost predicate SalesReferenceItems(db: Db) {
    forall i :: 0 <= i < |db.sales| ==> db.sales[i].foodItemId in db.foodItems.items
  }

  /** deleteFoodItem on the sale database: the sale table's references
      decide whether the schema lets the row go. */
  function DeleteFoodItem(db: Db, id: int): (t: Tx<Db, ()>)
    ensures t.result.Err? ==> t.state == db
    ensures t.result.Ok? <==> id in db.foodItems.items && forall i :: 0 <= i < |db.sales| ==> db.sales[i].foodItemId != id
    ensures t.result.Ok? ==> t.state.foodItems.items == db.foodItems.items - {id}
    ensures t.state.materials == db.materials && t.state.sales == db.sales
  {
    var t := FoodItemService.DeleteFoodItem(db.foodItems, id, ItemsSold(db.sales));
    Tx(db.(foodItems := t.state), t.result)
  }

  /** deleteMaterial on the sale database: the recipe lines decide whether
      the schema lets the row go. */
  function DeleteMaterial(db: Db, id: int): (t: Tx<Db, ()>)
    ensures t.result.Err? ==> t.state == db
    ensures t.result.Ok? <==>
              id in db.materials.rows &&
              forall k, i :: k in db.foodItems.items && 0 <= i < |db.foodItems.items[k].ingredients| ==>
                db.foodItems.items[k].ingredients[i].materialId != id
    ensures t.result.Ok? ==> t.state.materials.rows == db.materials.rows - {id}
    ensures t.state.foodItems == db.foodItems && t.state.sales == db.sales
  {
    var t := MaterialService.DeleteMaterial(db.materials, id, FoodItemService.MaterialsInUse(db.foodItems));
    Tx(db.(materials := t.state), t.result)
  }

  /** An item with a recorded sale cannot be deleted. */
  lemma DeleteSoldItemFails(db: Db, i: int)
    requires 0 <= i < |db.sales| && db.sales[i].foodItemId in db.foodItems.items
    ensures DeleteFoodItem(db, db.sales[i].foodItemId) == Tx(db, Err(ForeignKeyViolation))
  {
  }

  /** The foreign key keeps the sales joined: whatever deleteFoodItem is
      asked to remove, every sale still points at a stored item, so the
      reports' inner join on the item drops no sale. */
  lemma DeleteFoodItemKeepsSales(db: Db, id: int)
    requires SalesReferenceItems(db)
    ensures SalesReferenceItems(DeleteFoodItem(db, id).state)
  {
  }

  /** createSale only records sales of stored items. */
  lemma CreateSaleKeepsSales(db: Db, sale: Sale, now: int)
    requires SalesReferenceItems(db)
    ensures SalesReferenceItems(CreateSale(db, sale, now).state)
  {
    var t := CreateSale(db, sale, now);
    if t.result.Ok? {
      assert forall i :: 0 <= i < |db.sales| ==> t.state.sales[i] == db.sales[i];
    }
  }

  /** The sale of SaleServiceImplTest: two cakes at 150.00, each needing 0.5
      kg of flour at 50.00 per kg from a stock of 100, cost 50, earn a
      profit of 250 and leave 99 kg. */
  lemma ChocolateCakeSale(now: int)
    ensures var flour := Material(Some(1), "Flour", "kg", 50.0, 100.0, 0);
            var cake := FoodItem(Some(1), "Chocolate Cake", 150.0, [Ingredient(Some(1), Some(1), 1, Some("Flour"), 0.5)]);
            var db := Db(MaterialService.Store(map[1 := flour], 2),
                         FoodItemService.Store(map[1 := cake], map[1 := 1], 2, 2), [], 1);
            var t := CreateSale(db, Sale(None, 1, None, 2.0, 150.0, None, None, None), now);
            && t.result.Ok?
            && t.result.value.costOfIngredients == Some(50.0)
            && t.result.value.profit == Some(250.0)
            && t.result.value.saleDate == Some(now)
            && t.state.materials.rows[1].quantity == 99.0
  {
  }
}
