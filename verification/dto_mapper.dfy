/** DTOMapper: the conversions between the persistent records and the REST
    records. Every mapper sends null to null. An entity's references to
    its Material and FoodItem are read from the stores, so the names a
    response shows are the current ones; a request becomes an entity whose
    references are stubs carrying only an id. */
module DtoMapper {
  import opened Nullable
  import opened Entities
  import opened Dto
  import MaterialService
  import FoodItemService

  /** The request fields the entity records cannot leave null. The
      controllers validate a request before mapping it, and a valid request
      has them (ValidMaterialIsCreatable and its siblings below). */
  predicate MaterialComplete(d: MaterialDTO) {
    d.name.Some? && d.unit.Some? && d.pricePerUnit.Some? && d.quantity.Some? && d.datePurchased.Some?
  }

  predicate IngredientComplete(d: IngredientDTO) {
    d.materialId.Some? && d.quantityRequired.Some?
  }

  predicate FoodItemComplete(d: FoodItemDTO) {
    && d.name.Some? && d.pricePerServing.Some?
    && (d.ingredients.Some? ==>
          forall i :: 0 <= i < |d.ingredients.value| ==> IngredientComplete(d.ingredients.value[i]))
  }

  predicate SaleComplete(d: SaleDTO) {
    d.foodItemId.Some? && d.quantitySold.Some? && d.salePrice.Some?
  }

  // ---------------------------------------------------------------------
  // Material
  // ---------------------------------------------------------------------

  /** toMaterialDTO: all six fields copied. */
  function ToMaterialDTO(m: Option<Material>): (r: Option<MaterialDTO>)
    ensures r.None? <==> m.None?
    ensures r.Some? ==> MaterialComplete(r.value)
  {
    match m
    case None => None
    case Some(m) =>
      Some(MaterialDTO(m.id, Some(m.name), Some(m.unit), Some(m.pricePerUnit), Some(m.quantity), Some(m.datePurchased)))
  }

  /** toMaterialEntity: all six fields copied. */
  function ToMaterialEntity(d: Option<MaterialDTO>): (r: Option<Material>)
    requires d.Some? ==> MaterialComplete(d.value)
    ensures r.None? <==> d.None?
    ensures r.Some? ==>
              && r.value.id == d.value.id
              && Some(r.value.name) == d.value.name && Some(r.value.unit) == d.value.unit
              && Some(r.value.pricePerUnit) == d.value.pricePerUnit && Some(r.value.quantity) == d.value.quantity
              && Some(r.value.datePurchased) == d.value.datePurchased
  {
    match d
    case None => None
    case Some(d) =>
      Some(Material(d.id, d.name.value, d.unit.value, d.pricePerUnit.value, d.quantity.value, d.datePurchased.value))
  }

  /** The two material mappers are inverse to each other. */
  lemma MaterialRoundTrips(m: Option<Material>, d: Option<MaterialDTO>)
    requires d.Some? ==> MaterialComplete(d.value)
    ensures ToMaterialEntity(ToMaterialDTO(m)) == m
    ensures ToMaterialDTO(ToMaterialEntity(d)) == d
  {
  }

  /** A valid material request passes both checks createMaterial makes. */
  lemma ValidMaterialIsCreatable(d: MaterialDTO)
    requires MaterialValid(d)
    ensures MaterialComplete(d)
    ensures MaterialService.CreateCheck(ToMaterialEntity(Some(d)).value) == None
  {
  }

  // ---------------------------------------------------------------------
  // Ingredient
  // ---------------------------------------------------------------------

  /** The name a line's material reference shows: a stub carries none; a
      line that was resolved against the store shows the material's current
      name. */
  function MaterialNameOf(materials: map<int, Material>, line: Ingredient): (r: Option<string>)
    ensures line.materialName.None? ==> r.None?
    ensures line.materialName.Some? && line.materialId in materials ==> r == Some(materials[line.materialId].name)
  {
    if line.materialName.Some? && line.materialId in materials then Some(materials[line.materialId].name)
    else line.materialName
  }

  /** toIngredientDTO: id and quantity copied, material id and name read
      through the material reference. */
  function ToIngredientDTO(materials: map<int, Material>, line: Option<Ingredient>): (r: Option<IngredientDTO>)
    ensures r.None? <==> line.None?
    ensures r.Some? ==>
              && r.value.id == line.value.id
              && r.value.materialId == Some(line.value.materialId)
              && r.value.materialName == MaterialNameOf(materials, line.value)
              && r.value.quantityRequired == Some(line.value.quantityRequired)
  {
    match line
    case None => None
    case Some(l) => Some(IngredientDTO(l.id, Some(l.materialId), MaterialNameOf(materials, l), Some(l.quantityRequired)))
  }

  /** toIngredientEntity: id and quantity copied, a material stub with only
      the id, no owner. */
  function ToIngredientEntity(d: Option<IngredientDTO>): (r: Option<Ingredient>)
    requires d.Some? ==> IngredientComplete(d.value)
    ensures r.None? <==> d.None?
    ensures r.Some? ==>
              && r.value.id == d.value.id
              && r.value.owner.None?
              && r.value.materialId == d.value.materialId.value
              && r.value.materialName.None?
              && r.value.quantityRequired == d.value.quantityRequired.value
  {
    match d
    case None => None
    case Some(d) => Some(Ingredient(d.id, None, d.materialId.value, None, d.quantityRequired.value))
  }

  /** A request line that goes to an entity and back has lost only its
      material name; an entity line that goes to a request and back has lost
      its owner and its material name. */
  lemma IngredientRoundTrips(materials: map<int, Material>, d: IngredientDTO, line: Ingredient)
    requires IngredientComplete(d)
    ensures ToIngredientDTO(materials, ToIngredientEntity(Some(d))) == Some(d.(materialName := None))
    ensures ToIngredientEntity(ToIngredientDTO(materials, Some(line))) == Some(line.(owner := None, materialName := None))
  {
  }

  /** A valid request line passes the quantity check of createFoodItem;
      only the material lookup can still reject it. */
  lemma ValidLineIsAccepted(ms: MaterialService.Store, d: IngredientDTO)
    requires IngredientValid(d)
    ensures IngredientComplete(d)
    ensures var line := ToIngredientEntity(Some(d)).value;
            FoodItemService.LineAccepted(ms, line, true) <==> d.materialId.value in ms.rows
  {
  }

  // ---------------------------------------------------------------------
  // FoodItem
  // ---------------------------------------------------------------------

  /** The ingredient list mapped element by element, in order. */
  function LinesToDTO(materials: map<int, Material>, lines: seq<Ingredient>): (r: seq<IngredientDTO>)
    ensures |r| == |lines|
    ensures forall i :: 0 <= i < |lines| ==> Some(r[i]) == ToIngredientDTO(materials, Some(lines[i]))
  {
    seq(|lines|, i requires 0 <= i < |lines| => ToIngredientDTO(materials, Some(lines[i])).value)
  }

  function LinesToEntity(ds: seq<IngredientDTO>): (r: seq<Ingredient>)
    requires forall i :: 0 <= i < |ds| ==> IngredientComplete(ds[i])
    ensures |r| == |ds|
    ensures forall i :: 0 <= i < |ds| ==> Some(r[i]) == ToIngredientEntity(Some(ds[i]))
  {
    seq(|ds|, i requires 0 <= i < |ds| => ToIngredientEntity(Some(ds[i])).value)
  }

  /** toFoodItemDTO: id, name and price copied, the lines mapped in order. */
  function ToFoodItemDTO(materials: map<int, Material>, f: Option<FoodItem>): (r: Option<FoodItemDTO>)
    ensures r.None? <==> f.None?
    ensures r.Some? ==>
              && r.value.id == f.value.id && r.value.name == Some(f.value.name)
              && r.value.pricePerServing == Some(f.value.pricePerServing)
              && r.value.ingredients == Some(LinesToDTO(materials, f.value.ingredients))
  {
    match f
    case None => None
    case Some(f) => Some(FoodItemDTO(f.id, Some(f.name), Some(f.pricePerServing), Some(LinesToDTO(materials, f.ingredients))))
  }

  /** toFoodItemEntity: id, name and price copied; the lines mapped in
      order, or the entity's own empty list when the request has none. The
      lines are not marked as owned by the item. */
  function ToFoodItemEntity(d: Option<FoodItemDTO>): (r: Option<FoodItem>)
    requires d.Some? ==> FoodItemComplete(d.value)
    ensures r.None? <==> d.None?
    ensures r.Some? ==>
              && r.value.id == d.value.id && r.value.name == d.value.name.value
              && r.value.pricePerServing == d.value.pricePerServing.value
              && (d.value.ingredients.None? ==> r.value.ingredients == [])
              && (d.value.ingredients.Some? ==> r.value.ingredients == LinesToEntity(d.value.ingredients.value))
  {
    match d
    case None => None
    case Some(d) =>
      var f := NewFoodItem(d.id, d.name.value, d.pricePerServing.value);
      if d.ingredients.Some? then Some(f.(ingredients := LinesToEntity(d.ingredients.value))) else Some(f)
  }

  /** An entity that goes to a request and back keeps its scalars and its
      lines, in order, each without owner and material name. */
  lemma FoodItemEntityRoundTrip(materials: map<int, Material>, f: FoodItem)
    ensures var g := ToFoodItemEntity(ToFoodItemDTO(materials, Some(f))).value;
            && g.id == f.id && g.name == f.name && g.pricePerServing == f.pricePerServing
            && |g.ingredients| == |f.ingredients|
            && forall i :: 0 <= i < |f.ingredients| ==>
                 g.ingredients[i] == f.ingredients[i].(owner := None, materialName := None)
  {
    var dto := ToFoodItemDTO(materials, Some(f)).value;
    forall i | 0 <= i < |f.ingredients|
      ensures IngredientComplete(dto.ingredients.value[i])
    {
      assert Some(dto.ingredients.value[i]) == ToIngredientDTO(materials, Some(f.ingredients[i]));
    }
    var g := ToFoodItemEntity(Some(dto)).value;
    forall i | 0 <= i < |f.ingredients|
      ensures g.ingredients[i] == f.ingredients[i].(owner := None, materialName := None)
    {
      IngredientRoundTrips(materials, dto.ingredients.value[i], f.ingredients[i]);
    }
  }

  /** A request that goes to an entity and back keeps its scalars; its
      lines come back in order without their material names, and a missing
      list comes back empty. */
  lemma FoodItemRequestRoundTrip(materials: map<int, Material>, d: FoodItemDTO)
    requires FoodItemComplete(d)
    ensures var e := ToFoodItemDTO(materials, ToFoodItemEntity(Some(d))).value;
            var lines := d.ingredients.GetOr([]);
            && e.id == d.id && e.name == d.name && e.pricePerServing == d.pricePerServing
            && e.ingredients.Some? && |e.ingredients.value| == |lines|
            && forall i :: 0 <= i < |lines| ==> e.ingredients.value[i] == lines[i].(materialName := None)
  {
    var lines := d.ingredients.GetOr([]);
    var f := ToFoodItemEntity(Some(d)).value;
    assert |f.ingredients| == |lines|;
    var e := ToFoodItemDTO(materials, Some(f)).value;
    forall i | 0 <= i < |lines|
      ensures e.ingredients.value[i] == lines[i].(materialName := None)
    {
      assert Some(f.ingredients[i]) == ToIngredientEntity(Some(lines[i]));
      IngredientRoundTrips(materials, lines[i], f.ingredients[i]);
    }
  }

  /** A valid food item request passes the price check and every per-line
      quantity check of createFoodItem; only material lookups remain. */
  lemma ValidFoodItemIsPositive(ms: MaterialService.Store, d: FoodItemDTO)
    requires FoodItemValid(d)
    ensures FoodItemComplete(d)
    ensures var f := ToFoodItemEntity(Some(d)).value;
            && f.pricePerServing > 0.0
            && forall i :: 0 <= i < |f.ingredients| ==>
                 (FoodItemService.LineAccepted(ms, f.ingredients[i], true) <==> f.ingredients[i].materialId in ms.rows)
  {
    var f := ToFoodItemEntity(Some(d)).value;
    forall i | 0 <= i < |f.ingredients|
      ensures f.ingredients[i].quantityRequired > 0.0
    {
      assert Some(f.ingredients[i]) == ToIngredientEntity(Some(d.ingredients.value[i]));
    }
  }

  // ---------------------------------------------------------------------
  // Sale
  // ---------------------------------------------------------------------

  /** The name a sale's food item reference shows: a stub carries none; a
      stored sale shows the item's current name. */
  function FoodItemNameOf(items: map<int, FoodItem>, sale: Sale): (r: Option<string>)
    ensures sale.foodItemName.None? ==> r.None?
    ensures sale.foodItemName.Some? && sale.foodItemId in items ==> r == Some(items[sale.foodItemId].name)
  {
    if sale.foodItemName.Some? && sale.foodItemId in items then Some(items[sale.foodItemId].name)
    else sale.foodItemName
  }

  /** toSaleDTO: every field copied, the food item's id and name read
      through the reference; profit and cost exactly as stored. */
  function ToSaleDTO(items: map<int, FoodItem>, sale: Option<Sale>): (r: Option<SaleDTO>)
    ensures r.None? <==> sale.None?
    ensures r.Some? ==>
              && r.value.id == sale.value.id
              && r.value.foodItemId == Some(sale.value.foodItemId)
              && r.value.foodItemName == FoodItemNameOf(items, sale.value)
              && r.value.quantitySold == Some(sale.value.quantitySold)
              && r.value.salePrice == Some(sale.value.salePrice)
              && r.value.saleDate == sale.value.saleDate
              && r.value.profit == sale.value.profit
              && r.value.costOfIngredients == sale.value.costOfIngredients
  {
    match sale
    case None => None
    case Some(s) =>
      Some(SaleDTO(s.id, Some(s.foodItemId), FoodItemNameOf(items, s), Some(s.quantitySold), Some(s.salePrice),
                   s.saleDate, s.profit, s.costOfIngredients))
  }

  /** toSaleEntity: every field copied, a food item stub with only the id. */
  function ToSaleEntity(d: Option<SaleDTO>): (r: Option<Sale>)
    requires d.Some? ==> SaleComplete(d.value)
    ensures r.None? <==> d.None?
    ensures r.Some? ==>
              && r.value.id == d.value.id
              && r.value.foodItemName.None? && Some(r.value.foodItemId) == d.value.foodItemId
              && Some(r.value.quantitySold) == d.value.quantitySold && Some(r.value.salePrice) == d.value.salePrice
              && r.value.saleDate == d.value.saleDate
              && r.value.profit == d.value.profit && r.value.costOfIngredients == d.value.costOfIngredients
  {
    match d
    case None => None
    case Some(d) =>
      Some(Sale(d.id, d.foodItemId.value, None, d.quantitySold.value, d.salePrice.value,
                d.saleDate, d.profit, d.costOfIngredients))
  }

  /** A request that goes to an entity and back has lost only the food
      item's name; a stored sale that goes to a request and back has lost
      only its name snapshot. */
  lemma SaleRoundTrips(items: map<int, FoodItem>, d: SaleDTO, sale: Sale)
    requires SaleComplete(d)
    ensures ToSaleDTO(items, ToSaleEntity(Some(d))) == Some(d.(foodItemName := None))
    ensures ToSaleEntity(ToSaleDTO(items, Some(sale))) == Some(sale.(foodItemName := None))
  {
  }

  /** A valid sale request passes both positivity checks of createSale. */
  lemma ValidSaleIsPositive(d: SaleDTO)
    requires SaleValid(d)
    ensures SaleComplete(d)
    ensures var s := ToSaleEntity(Some(d)).value;
            s.quantitySold > 0.0 && s.salePrice > 0.0
  {
  }
}
