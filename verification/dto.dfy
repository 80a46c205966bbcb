/** The request and response records of the REST layer and the bean
    validation rules their annotations declare. Every field may be null
    (None); the rules say which must not be. */
module Dto {
  import opened Nullable
  import opened JavaText

  datatype MaterialDTO = MaterialDTO(
    id: Option<int>,
    name: Option<string>,
    unit: Option<string>,
    pricePerUnit: Option<real>,
    quantity: Option<real>,
    datePurchased: Option<int>)

  datatype IngredientDTO = IngredientDTO(
    id: Option<int>,
    materialId: Option<int>,
    materialName: Option<string>,
    quantityRequired: Option<real>)

  datatype FoodItemDTO = FoodItemDTO(
    id: Option<int>,
    name: Option<string>,
    pricePerServing: Option<real>,
    ingredients: Option<seq<IngredientDTO>>)

  datatype SaleDTO = SaleDTO(
    id: Option<int>,
    foodItemId: Option<int>,
    foodItemName: Option<string>,
    quantitySold: Option<real>,
    salePrice: Option<real>,
    saleDate: Option<int>,
    profit: Option<real>,
    costOfIngredients: Option<real>)

  /** A FoodItemDTO as its no-argument constructor leaves it: every field
      null except the ingredient list, which starts out empty. */
  function EmptyFoodItemDTO(): (d: FoodItemDTO)
    ensures d.ingredients == Some([])
    ensures d.id.None? && d.name.None? && d.pricePerServing.None?
  {
    FoodItemDTO(None, None, None, Some([]))
  }

  // ---------------------------------------------------------------------
  // The constraint annotations
  // ---------------------------------------------------------------------

  /** @NotBlank: present, and something is left after trimming. */
  predicate NotBlank(s: Option<string>) {
    s.Some? && HasVisibleChar(s.value)
  }

  /** @DecimalMin(min) with its default inclusive bound; like every
      constraint but @NotNull it accepts null. */
  predicate DecimalMin(x: Option<real>, min: real) {
    x.None? || x.value >= min
  }

  /** @NotNull together with @DecimalMin(min). */
  predicate RequiredAtLeast(x: Option<real>, min: real) {
    x.Some? && DecimalMin(x, min)
  }

  /** @NotBlank accepts exactly the non-null strings that trimming does not
      empty; in particular it already rejects null. */
  lemma NotBlankIsNotNull(s: Option<string>)
    ensures NotBlank(s) <==> s.Some? && |Trim(s.value)| > 0
  {
    if s.Some? {
      TrimEmptyIffBlank(s.value);
    }
  }

  /** A name passes @NotBlank; blanks, tabs and the empty string do not. */
  lemma NotBlankExamples()
    ensures NotBlank(Some("Flour")) && !NotBlank(Some(" \t ")) && !NotBlank(Some(""))
  {
    assert !IsTrimmable('F');
    assert Some("Flour").value[0] == 'F';
    TrimEmptyIffBlank(" \t ");
  }

  /** The bound is inclusive: 0.01 passes a 0.01 minimum, 0.0 passes a 0.0
      minimum, and anything below fails. */
  lemma DecimalMinBoundaries()
    ensures RequiredAtLeast(Some(0.01), 0.01) && !RequiredAtLeast(Some(0.009), 0.01)
    ensures RequiredAtLeast(Some(0.0), 0.0) && !RequiredAtLeast(Some(-0.01), 0.0)
    ensures !RequiredAtLeast(None, 0.0) && DecimalMin(None, 0.01)
  {
  }

  // ---------------------------------------------------------------------
  // The rules of each record
  // ---------------------------------------------------------------------

  /** MaterialDTO: name and unit non-blank, price at least 0.01, quantity
      at least 0, purchase date present; the id is free. */
  predicate MaterialValid(d: MaterialDTO) {
    && NotBlank(d.name)
    && NotBlank(d.unit)
    && RequiredAtLeast(d.pricePerUnit, 0.01)
    && RequiredAtLeast(d.quantity, 0.0)
    && d.datePurchased.Some?
  }

  /** IngredientDTO: a material id and a quantity of at least 0.01; the id
      and the material name are free. */
  predicate IngredientValid(d: IngredientDTO) {
    d.materialId.Some? && RequiredAtLeast(d.quantityRequired, 0.01)
  }

  /** FoodItemDTO: name non-blank, price at least 0.01, and @Valid cascades
      the ingredient rules into every element of the list (a null list has
      no elements to check). */
  predicate FoodItemValid(d: FoodItemDTO) {
    && NotBlank(d.name)
    && RequiredAtLeast(d.pricePerServing, 0.01)
    && (d.ingredients.Some? ==>
          forall i :: 0 <= i < |d.ingredients.value| ==> IngredientValid(d.ingredients.value[i]))
  }

  /** SaleDTO: a food item id, and a quantity and a price of at least 0.01;
      the name, date, profit and cost are free. */
  predicate SaleValid(d: SaleDTO) {
    && d.foodItemId.Some?
    && RequiredAtLeast(d.quantitySold, 0.01)
    && RequiredAtLeast(d.salePrice, 0.01)
  }

  /** What the rules leave open: a sale request without a date, profit or
      cost, naming any food item, is valid; one missing its price is not. */
  lemma SaleRulesExample()
    ensures SaleValid(SaleDTO(None, Some(1), None, Some(2.0), Some(500.0), None, None, None))
    ensures SaleValid(SaleDTO(Some(9), Some(1), Some("x"), Some(0.01), Some(0.01), Some(0), Some(-1.0), Some(-1.0)))
    ensures !SaleValid(SaleDTO(None, Some(1), None, Some(2.0), None, None, None, None))
  {
  }

  /** A food item with an invalid line is invalid, whatever its own fields. */
  lemma InvalidLineInvalidates(d: FoodItemDTO, i: int)
    requires d.ingredients.Some? && 0 <= i < |d.ingredients.value|
    requires !IngredientValid(d.ingredients.value[i])
    ensures !FoodItemValid(d)
  {
  }
}
