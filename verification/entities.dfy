/** The persistent records: Material, Ingredient (a recipe line), FoodItem
    and Sale, with the FoodItem helpers that keep the two sides of the
    item/ingredient association in step.

    The object graph of the source becomes id references. An Ingredient
    refers to its Material by id and keeps the material's name as last
    resolved (None for a stub built from a request, which carries only the
    id); the price and stock a sale reads come from the material store by
    id. An Ingredient's owner is the id of the FoodItem it belongs to (None
    once detached). A Sale refers to its FoodItem by id and keeps the item's
    name as resolved when the sale was stored. */
module Entities {
  import opened Nullable

  datatype Material = Material(
    id: Option<int>,
    name: string,
    unit: string,
    pricePerUnit: real,
    quantity: real,
    datePurchased: int)

  datatype Ingredient = Ingredient(
    id: Option<int>,
    owner: Option<int>,
    materialId: int,
    materialName: Option<string>,
    quantityRequired: real)

  datatype FoodItem = FoodItem(
    id: Option<int>,
    name: string,
    pricePerServing: real,
    ingredients: seq<Ingredient>)

  datatype Sale = Sale(
    id: Option<int>,
    foodItemId: int,
    foodItemName: Option<string>,
    quantitySold: real,
    salePrice: real,
    saleDate: Option<int>,
    profit: Option<real>,
    costOfIngredients: Option<real>)

  /** A FoodItem as the no-argument constructor leaves it apart from the
      scalar fields: its ingredient list starts out empty. */
  function NewFoodItem(id: Option<int>, name: string, pricePerServing: real): (f: FoodItem)
    ensures f.ingredients == []
    ensures f.id == id && f.name == name && f.pricePerServing == pricePerServing
  {
    FoodItem(id, name, pricePerServing, [])
  }

  /** FoodItem.addIngredient: the line goes to the end of the list and is
      marked as owned by this item. */
  function AddIngredient(f: FoodItem, line: Ingredient): (g: FoodItem)
    ensures |g.ingredients| == |f.ingredients| + 1
    ensures g.ingredients[..|f.ingredients|] == f.ingredients
    ensures g.ingredients[|f.ingredients|].owner == f.id
    ensures g.ingredients[|f.ingredients|].(owner := line.owner) == line
    ensures g.(ingredients := f.ingredients) == f
  {
    f.(ingredients := f.ingredients + [line.(owner := f.id)])
  }

  /** Position of the first element equal to `x`. */
  function IndexOf<T(==)>(xs: seq<T>, x: T): (i: nat)
    requires x in xs
    ensures i < |xs| && xs[i] == x
    ensures x !in xs[..i]
    decreases |xs|
  {
    if xs[0] == x then 0
    else
      assert x in xs[1..] by { assert xs == [xs[0]] + xs[1..]; }
      var j := IndexOf(xs[1..], x);
      assert xs[..j + 1] == [xs[0]] + xs[1..][..j];
      j + 1
  }

  /** List.remove(Object): drops the first element equal to `x`, if any;
      the elements before and after it keep their order. */
  function RemoveFirst<T(==)>(xs: seq<T>, x: T): (r: seq<T>)
    ensures x !in xs ==> r == xs
    ensures x in xs ==> |r| == |xs| - 1
    ensures x in xs ==> r == xs[..IndexOf(xs, x)] + xs[IndexOf(xs, x) + 1..]
    ensures multiset(r) == multiset(xs) - multiset{x}
  {
    if x !in xs then xs
    else
      var i := IndexOf(xs, x);
      assert xs == xs[..i] + [x] + xs[i + 1..];
      xs[..i] + xs[i + 1..]
  }

  /** FoodItem.removeIngredient: the first occurrence of the line leaves the
      list, the other lines keep their order, and the detached line (the
      second component) no longer has an owner. */
  function RemoveIngredient(f: FoodItem, line: Ingredient): (r: (FoodItem, Ingredient))
    ensures line !in f.ingredients ==> r.0 == f
    ensures line in f.ingredients ==>
              r.0.ingredients == f.ingredients[..IndexOf(f.ingredients, line)] +
                                 f.ingredients[IndexOf(f.ingredients, line) + 1..]
    ensures multiset(r.0.ingredients) == multiset(f.ingredients) - multiset{line}
    ensures r.0.(ingredients := f.ingredients) == f
    ensures r.1 == line.(owner := None)
  {
    (f.(ingredients := RemoveFirst(f.ingredients, line)), line.(owner := None))
  }

  /** Removing a line that was just added, and appears nowhere else in the
      list, gives back the item as it was. */
  lemma {:induction false} RemoveUndoesAdd(f: FoodItem, line: Ingredient)
    requires line.owner == f.id
    requires line !in f.ingredients
    ensures RemoveIngredient(AddIngredient(f, line), line).0 == f
  {
    RemoveFirstAtEnd(f.ingredients, line);
  }

  lemma RemoveFirstAtEnd<T>(xs: seq<T>, x: T)
    requires x !in xs
    ensures RemoveFirst(xs + [x], x) == xs
  {
    assert (xs + [x])[..|xs|] == xs;
    assert IndexOf(xs + [x], x) == |xs| by {
      var i := IndexOf(xs + [x], x);
      if i < |xs| {
        assert false;
      }
    }
  }
}
