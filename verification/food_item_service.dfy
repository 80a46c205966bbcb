/** FoodItemServiceImpl over an id-keyed table of food items, each owning
    its ordered list of recipe lines (cascade-all with orphan removal), and
    an index of the ingredient table (IngredientRepository) mapping every
    stored line id to the id of the item that owns it. */
module FoodItemService {
  import opened Nullable
  import opened Failures
  import opened Entities
  import MaterialService

  datatype Store = Store(
    items: map<int, FoodItem>,
    owners: map<int, int>,
    nextId: int,
    nextLineId: int)
  {
    /** Rows sit under their own ids; every stored line has a handed-out id,
        is recorded in the ingredient index as owned by its item, and knows
        its owner; every index entry names a stored item whose list holds
        that line. The lists and the index are two views of one ingredient
        table (the list is mapped by the line's owner). */
    ghost predicate Valid() {
      && (forall k :: k in items ==> items[k].id == Some(k) && k < nextId)
      && (forall k, i :: k in items && 0 <= i < |items[k].ingredients| ==>
            OwnedLine(items[k].ingredients[i], k, owners, nextLineId))
      && (forall j :: j in owners ==>
            j < nextLineId && owners[j] in items && FindLine(items[owners[j]].ingredients, j).Some?)
      && (forall k :: k in items ==> DistinctIds(items[k].ingredients))
    }
  }

  /** No two lines of one list share an id. */
  ghost predicate DistinctIds(lines: seq<Ingredient>) {
    forall i, i' :: 0 <= i < |lines| && 0 <= i' < |lines| && lines[i].id == lines[i'].id ==> i == i'
  }

  /** A stored line of item `k`. */
  ghost predicate OwnedLine(line: Ingredient, k: int, owners: map<int, int>, nextLineId: int) {
    && line.id.Some?
    && line.id.value < nextLineId
    && line.id.value in owners
    && owners[line.id.value] == k
    && line.owner == Some(k)
  }

  /** getFoodItemById: the stored item with its lines, or "Food item not found". */
  function GetFoodItemById(s: Store, id: int): (r: Result<FoodItem>)
    ensures r.Ok? <==> id in s.items
    ensures r.Ok? ==> r.value == s.items[id]
    ensures r.Err? ==> r.error == FoodItemNotFound(id)
  {
    if id in s.items then Ok(s.items[id]) else Err(FoodItemNotFound(id))
  }

  /** A request line passes createFoodItem's per-line checks. */
  predicate LineAccepted(ms: MaterialService.Store, line: Ingredient, checkQuantity: bool) {
    line.materialId in ms.rows && (checkQuantity ==> line.quantityRequired > 0.0)
  }

  /** The error the per-line checks raise for a line they reject: the
      material lookup comes first, the quantity check second. */
  function LineError(ms: MaterialService.Store, line: Ingredient): Error {
    if line.materialId !in ms.rows then MaterialNotFound(line.materialId)
    else IngredientQuantityNotPositive
  }

  /** The loop over the request's lines: each line's material is looked up
      (and its name taken), and, when `checkQuantity`, its quantity must be
      positive. The first line that fails decides the error. */
  function ResolveLines(ms: MaterialService.Store, lines: seq<Ingredient>, checkQuantity: bool)
    : (r: Result<seq<Ingredient>>)
    ensures r.Ok? <==> forall i :: 0 <= i < |lines| ==> LineAccepted(ms, lines[i], checkQuantity)
    ensures r.Ok? ==> |r.value| == |lines|
    ensures r.Ok? ==> forall i :: 0 <= i < |lines| ==>
              r.value[i] == lines[i].(materialName := Some(ms.rows[lines[i].materialId].name))
    ensures r.Err? ==> exists i :: (0 <= i < |lines| && !LineAccepted(ms, lines[i], checkQuantity) &&
              r.error == LineError(ms, lines[i]) &&
              forall j :: 0 <= j < i ==> LineAccepted(ms, lines[j], checkQuantity))
    decreases |lines|
  {
    if |lines| == 0 then Ok([])
    else
      var line := lines[0];
      match MaterialService.GetMaterialById(ms, line.materialId)
      case Err(e) => Err(e)
      case Ok(m) =>
        if checkQuantity && line.quantityRequired <= 0.0 then Err(IngredientQuantityNotPositive)
        else
          match ResolveLines(ms, lines[1..], checkQuantity)
          case Err(e) =>
            assert forall i :: 1 <= i < |lines| ==> lines[i] == lines[1..][i - 1];
            Err(e)
          case Ok(rest) => Ok([line.(materialName := Some(m.name))] + rest)
  }

  /** Saving lines for item `k`: each gets the next identity value in turn
      and is marked as owned by `k`. */
  function Persist(lines: seq<Ingredient>, k: int, firstId: int): (r: seq<Ingredient>)
    ensures |r| == |lines|
    ensures forall i :: 0 <= i < |lines| ==>
              r[i] == lines[i].(id := Some(firstId + i), owner := Some(k))
  {
    seq(|lines|, i requires 0 <= i < |lines| => lines[i].(id := Some(firstId + i), owner := Some(k)))
  }

  /** The ingredient index with the `n` ids from `firstId` recorded as owned by `k`. */
  function Claim(owners: map<int, int>, firstId: int, n: nat, k: int): (r: map<int, int>)
    ensures forall j :: j in r <==> j in owners || firstId <= j < firstId + n
    ensures forall j :: firstId <= j < firstId + n ==> r[j] == k
    ensures forall j :: j in owners && !(firstId <= j < firstId + n) ==> r[j] == owners[j]
    decreases n
  {
    if n == 0 then owners else Claim(owners, firstId + 1, n - 1, k)[firstId := k]
  }

  /** The ingredient index without the lines owned by `k`: orphan removal. */
  function Release(owners: map<int, int>, k: int): (r: map<int, int>)
    ensures forall j :: j in r <==> j in owners && owners[j] != k
    ensures forall j :: j in r ==> r[j] == owners[j]
  {
    map j | j in owners && owners[j] != k :: owners[j]
  }

  /** createFoodItem: rejects a price per serving that is not positive
      before anything is saved; then every line must name a stored material
      and require a positive quantity, or the whole call rolls back,
      including the item already saved. On success the item is stored
      under a fresh id with its lines in the given order, each under a fresh
      id and owned by the new item. */
  function CreateFoodItem(s: Store, ms: MaterialService.Store, f: FoodItem): (t: Tx<Store, FoodItem>)
    requires s.Valid()
    ensures t.state.Valid()
    ensures t.result.Err? ==> t.state == s
    ensures f.pricePerServing <= 0.0 ==> t.result == Err(PricePerServingNotPositive)
    ensures t.result.Ok? <==>
              f.pricePerServing > 0.0 &&
              forall i :: 0 <= i < |f.ingredients| ==> LineAccepted(ms, f.ingredients[i], true)
    ensures t.result.Ok? ==>
              var saved := t.result.value;
              && s.nextId !in s.items
              && saved.id == Some(s.nextId)
              && saved.name == f.name && saved.pricePerServing == f.pricePerServing
              && |saved.ingredients| == |f.ingredients|
              && (forall i :: 0 <= i < |f.ingredients| ==>
                    saved.ingredients[i].owner == saved.id &&
                    saved.ingredients[i].quantityRequired == f.ingredients[i].quantityRequired &&
                    saved.ingredients[i].materialId == f.ingredients[i].materialId)
              && t.state.items == s.items[s.nextId := saved]
              && t.state.nextId == s.nextId + 1 && t.state.nextLineId == s.nextLineId + |f.ingredients|
              && (forall j :: j in t.state.owners <==>
                    j in s.owners || s.nextLineId <= j < s.nextLineId + |f.ingredients|)
              && (forall j :: j in s.owners ==> j in t.state.owners && t.state.owners[j] == s.owners[j])
              && (forall j :: s.nextLineId <= j < s.nextLineId + |f.ingredients| ==>
                    j in t.state.owners && t.state.owners[j] == s.nextId)
  {
    if f.pricePerServing <= 0.0 then Commit(s, Err(PricePerServingNotPositive))
    else
      match ResolveLines(ms, f.ingredients, true)
      case Err(e) => Commit(s, Err(e))
      case Ok(resolved) => Commit(s, Ok(StoreItem(s, f, resolved)))
  }

  /** The end of createFoodItem once every line resolved: the item goes in
      under the next id, its lines under the next line ids in order, each
      owned by it and recorded in the ingredient index. */
  function StoreItem(s: Store, f: FoodItem, resolved: seq<Ingredient>): (r: (Store, FoodItem))
    requires s.Valid()
    requires |resolved| == |f.ingredients|
    requires forall i :: 0 <= i < |f.ingredients| ==>
               resolved[i].quantityRequired == f.ingredients[i].quantityRequired &&
               resolved[i].materialId == f.ingredients[i].materialId
    ensures r.0.Valid()
    ensures var saved := r.1;
            && s.nextId !in s.items
            && saved.id == Some(s.nextId)
            && saved.name == f.name && saved.pricePerServing == f.pricePerServing
            && |saved.ingredients| == |f.ingredients|
            && (forall i :: 0 <= i < |f.ingredients| ==>
                  saved.ingredients[i].owner == saved.id &&
                  saved.ingredients[i].quantityRequired == f.ingredients[i].quantityRequired &&
                  saved.ingredients[i].materialId == f.ingredients[i].materialId)
            && r.0.items == s.items[s.nextId := saved]
            && r.0.nextId == s.nextId + 1 && r.0.nextLineId == s.nextLineId + |f.ingredients|
            && (forall j :: j in r.0.owners <==>
                  j in s.owners || s.nextLineId <= j < s.nextLineId + |f.ingredients|)
            && (forall j :: j in s.owners ==> j in r.0.owners && r.0.owners[j] == s.owners[j])
            && (forall j :: s.nextLineId <= j < s.nextLineId + |f.ingredients| ==>
                    j in r.0.owners && r.0.owners[j] == s.nextId)
  {
    var k := s.nextId;
    var lines := Persist(resolved, k, s.nextLineId);
    var saved := FoodItem(Some(k), f.name, f.pricePerServing, lines);
    var after := Store(s.items[k := saved], Claim(s.owners, s.nextLineId, |lines|, k),
                       k + 1, s.nextLineId + |lines|);
    IndexBelowNext(s);
    assert after.Valid() by { PersistValid(s, k, saved, after); }
    (after, saved)
  }

  /** Storing item `k` with freshly persisted lines keeps the store valid. */
  lemma PersistValid(s: Store, k: int, saved: FoodItem, after: Store)
    requires s.Valid()
    requires forall j :: j in s.owners ==> s.owners[j] != k
    requires k < after.nextId && s.nextId <= after.nextId
    requires saved.id == Some(k)
    requires after.nextLineId == s.nextLineId + |saved.ingredients|
    requires forall i :: 0 <= i < |saved.ingredients| ==>
               saved.ingredients[i].id == Some(s.nextLineId + i) && saved.ingredients[i].owner == Some(k)
    requires after.items == s.items[k := saved]
    requires after.owners == Claim(s.owners, s.nextLineId, |saved.ingredients|, k)
    ensures after.Valid()
  {
    PersistOwned(s, k, saved, after);
    PersistListed(s, k, saved, after);
    assert DistinctIds(saved.ingredients);
    assert forall k' :: k' in after.items && k' != k ==> after.items[k'] == s.items[k'];
  }

  /** After storing item `k` with freshly persisted lines every stored line
      is an owned line. */
  lemma PersistOwned(s: Store, k: int, saved: FoodItem, after: Store)
    requires s.Valid()
    requires after.nextLineId == s.nextLineId + |saved.ingredients|
    requires forall i :: 0 <= i < |saved.ingredients| ==>
               saved.ingredients[i].id == Some(s.nextLineId + i) && saved.ingredients[i].owner == Some(k)
    requires after.items == s.items[k := saved]
    requires after.owners == Claim(s.owners, s.nextLineId, |saved.ingredients|, k)
    ensures forall k', i :: k' in after.items && 0 <= i < |after.items[k'].ingredients| ==>
              OwnedLine(after.items[k'].ingredients[i], k', after.owners, after.nextLineId)
  {
    forall k', i | k' in after.items && 0 <= i < |after.items[k'].ingredients|
      ensures OwnedLine(after.items[k'].ingredients[i], k', after.owners, after.nextLineId)
    {
      if k' != k {
        assert OwnedLine(s.items[k'].ingredients[i], k', s.owners, s.nextLineId);
      }
    }
  }

  /** After storing item `k` with freshly persisted lines, every index entry
      still names a line its item's list holds. */
  lemma PersistListed(s: Store, k: int, saved: FoodItem, after: Store)
    requires s.Valid()
    requires forall j :: j in s.owners ==> s.owners[j] != k
    requires forall i :: 0 <= i < |saved.ingredients| ==> saved.ingredients[i].id == Some(s.nextLineId + i)
    requires after.items == s.items[k := saved]
    requires after.owners == Claim(s.owners, s.nextLineId, |saved.ingredients|, k)
    ensures forall j :: j in after.owners ==>
              after.owners[j] in after.items && FindLine(after.items[after.owners[j]].ingredients, j).Some?
  {
    forall j | j in after.owners
      ensures after.owners[j] in after.items && FindLine(after.items[after.owners[j]].ingredients, j).Some?
    {
      if s.nextLineId <= j < s.nextLineId + |saved.ingredients| {
        ListedLine(saved.ingredients, saved.ingredients[j - s.nextLineId], j);
      } else {
        assert after.items[after.owners[j]] == s.items[s.owners[j]];
      }
    }
  }

  /** updateFoodItem: "Food item not found" for an absent id; otherwise the
      name and price are overwritten and the whole line list is replaced by
      the request's lines, each naming a stored material. No positivity is
      checked, neither of the price nor of the quantities. The old lines
      leave the ingredient index. */
  function UpdateFoodItem(s: Store, ms: MaterialService.Store, id: int, f: FoodItem): (t: Tx<Store, FoodItem>)
    ensures t.result.Err? ==> t.state == s
    ensures id !in s.items ==> t.result == Err(FoodItemNotFound(id))
    ensures t.result.Ok? <==>
              id in s.items &&
              forall i :: 0 <= i < |f.ingredients| ==> f.ingredients[i].materialId in ms.rows
    ensures t.result.Ok? ==>
              var updated := t.result.value;
              && updated.id == s.items[id].id
              && updated.name == f.name && updated.pricePerServing == f.pricePerServing
              && |updated.ingredients| == |f.ingredients|
              && (forall i :: 0 <= i < |f.ingredients| ==>
                    updated.ingredients[i].owner == Some(id) &&
                    updated.ingredients[i].quantityRequired == f.ingredients[i].quantityRequired &&
                    updated.ingredients[i].materialId == f.ingredients[i].materialId)
              && t.state.items == s.items[id := updated]
              && (forall j :: j in t.state.owners && t.state.owners[j] == id ==>
                    s.nextLineId <= j < s.nextLineId + |f.ingredients|)
    ensures s.Valid() ==> t.state.Valid()
  {
    match GetFoodItemById(s, id)
    case Err(e) => Commit(s, Err(e))
    case Ok(existing) =>
      match ResolveLines(ms, f.ingredients, false)
      case Err(e) => Commit(s, Err(e))
      case Ok(resolved) => Commit(s, Ok(ReplaceLines(s, id, f, resolved)))
  }

  /** The end of updateFoodItem once every line resolved: the stored item
      takes the name, the price and the new lines, saved under fresh ids,
      and the ingredient index trades the item's old lines for the new. */
  function ReplaceLines(s: Store, id: int, f: FoodItem, resolved: seq<Ingredient>): (r: (Store, FoodItem))
    requires id in s.items
    requires |resolved| == |f.ingredients|
    requires forall i :: 0 <= i < |f.ingredients| ==>
               resolved[i].quantityRequired == f.ingredients[i].quantityRequired &&
               resolved[i].materialId == f.ingredients[i].materialId
    ensures var updated := r.1;
            && updated.id == s.items[id].id
            && updated.name == f.name && updated.pricePerServing == f.pricePerServing
            && |updated.ingredients| == |f.ingredients|
            && (forall i :: 0 <= i < |f.ingredients| ==>
                  updated.ingredients[i].owner == Some(id) &&
                  updated.ingredients[i].quantityRequired == f.ingredients[i].quantityRequired &&
                  updated.ingredients[i].materialId == f.ingredients[i].materialId)
            && r.0.items == s.items[id := updated]
            && (forall j :: j in r.0.owners && r.0.owners[j] == id ==>
                  s.nextLineId <= j < s.nextLineId + |f.ingredients|)
    ensures s.Valid() ==> r.0.Valid()
  {
    var lines := Persist(resolved, id, s.nextLineId);
    var updated := s.items[id].(name := f.name, pricePerServing := f.pricePerServing, ingredients := lines);
    var kept := Release(s.owners, id);
    var after := Store(s.items[id := updated], Claim(kept, s.nextLineId, |lines|, id),
                       s.nextId, s.nextLineId + |lines|);
    assert s.Valid() ==> after.Valid() by {
      if s.Valid() {
        var base := ReleaseValid(s, id);
        assert base.items[id := updated] == s.items[id := updated];
        PersistValid(base, id, updated, after);
      }
    }
    (after, updated)
  }

  /** deleteFoodItem: "Food item not found" for an absent id. Otherwise the
      item goes, and with it (cascade) every line it owned, unless a sale
      still points at it: `sold` holds the food item ids the sale table
      references, and its non-null food_item_id foreign key makes the
      delete fail at flush, rolling the call back. */
  function DeleteFoodItem(s: Store, id: int, sold: set<int>): (t: Tx<Store, ()>)
    ensures t.result.Err? ==> t.state == s
    ensures id !in s.items ==> t.result == Err(FoodItemNotFound(id))
    ensures id in s.items && id in sold ==> t.result == Err(ForeignKeyViolation)
    ensures t.result.Ok? <==> id in s.items && id !in sold
    ensures t.result.Ok? ==>
              t.state.items == s.items - {id} &&
              (forall j :: j in t.state.owners <==> j in s.owners && s.owners[j] != id) &&
              (forall j :: j in t.state.owners ==> t.state.owners[j] == s.owners[j])
    ensures s.Valid() ==> t.state.Valid()
  {
    if id !in s.items then Commit(s, Err(FoodItemNotFound(id)))
    else if id in sold then Commit(s, Err(ForeignKeyViolation))
    else
      var after := s.(items := s.items - {id}, owners := Release(s.owners, id));
      assert s.Valid() ==> after.Valid() by {
        if s.Valid() {
          var _ := ReleaseValid(s, id);
        }
      }
      Commit(s, Ok((after, ())))
  }

  /** addIngredientToFoodItem: the item and the material must exist; the
      line is saved under a fresh id and appended, owned by the item. Its
      quantity is not checked. */
  function AddIngredientToFoodItem(s: Store, ms: MaterialService.Store, foodItemId: int, line: Ingredient)
    : (t: Tx<Store, FoodItem>)
    ensures t.result.Err? ==> t.state == s
    ensures foodItemId !in s.items ==> t.result == Err(FoodItemNotFound(foodItemId))
    ensures foodItemId in s.items && line.materialId !in ms.rows ==>
              t.result == Err(MaterialNotFound(line.materialId))
    ensures t.result.Ok? <==> foodItemId in s.items && line.materialId in ms.rows
    ensures t.result.Ok? ==>
              var old_ := s.items[foodItemId].ingredients;
              var new_ := t.result.value.ingredients;
              && |new_| == |old_| + 1
              && new_[..|old_|] == old_
              && new_[|old_|].id == Some(s.nextLineId)
              && new_[|old_|].owner == s.items[foodItemId].id
              && new_[|old_|].quantityRequired == line.quantityRequired
              && new_[|old_|].materialId == line.materialId
              && t.state.items == s.items[foodItemId := t.result.value]
              && t.state.owners == s.owners[s.nextLineId := foodItemId]
    ensures s.Valid() ==> t.state.Valid()
  {
    match GetFoodItemById(s, foodItemId)
    case Err(e) => Commit(s, Err(e))
    case Ok(item) =>
      match MaterialService.GetMaterialById(ms, line.materialId)
      case Err(e) => Commit(s, Err(e))
      case Ok(m) =>
        var saved := line.(id := Some(s.nextLineId), owner := Some(foodItemId), materialName := Some(m.name));
        var updated := AddIngredient(item, saved);
        var after := Store(s.items[foodItemId := updated], s.owners[s.nextLineId := foodItemId],
                           s.nextId, s.nextLineId + 1);
        assert s.Valid() ==> after.Valid() by {
          if s.Valid() {
            AppendValid(s, foodItemId, updated, after);
          }
        }
        Commit(s, Ok((after, updated)))
  }

  /** Appending a line under the next line id to item `k`, and recording it
      in the index, keeps the store valid. */
  lemma AppendValid(s: Store, k: int, updated: FoodItem, after: Store)
    requires s.Valid()
    requires k in s.items
    requires |updated.ingredients| == |s.items[k].ingredients| + 1
    requires updated.ingredients[..|s.items[k].ingredients|] == s.items[k].ingredients
    requires updated.ingredients[|s.items[k].ingredients|].id == Some(s.nextLineId)
    requires updated.ingredients[|s.items[k].ingredients|].owner == Some(k)
    requires updated.id == s.items[k].id
    requires after == Store(s.items[k := updated], s.owners[s.nextLineId := k], s.nextId, s.nextLineId + 1)
    ensures after.Valid()
  {
    AppendOwned(s, k, updated, after);
    AppendListed(s, k, updated, after);
    AppendDistinct(s, k, updated);
    assert forall k' :: k' in after.items && k' != k ==> after.items[k'] == s.items[k'];
  }

  /** After the append every stored line is still an owned line. */
  lemma AppendOwned(s: Store, k: int, updated: FoodItem, after: Store)
    requires s.Valid()
    requires k in s.items
    requires |updated.ingredients| == |s.items[k].ingredients| + 1
    requires updated.ingredients[..|s.items[k].ingredients|] == s.items[k].ingredients
    requires updated.ingredients[|s.items[k].ingredients|].id == Some(s.nextLineId)
    requires updated.ingredients[|s.items[k].ingredients|].owner == Some(k)
    requires after == Store(s.items[k := updated], s.owners[s.nextLineId := k], s.nextId, s.nextLineId + 1)
    ensures forall k', i :: k' in after.items && 0 <= i < |after.items[k'].ingredients| ==>
              OwnedLine(after.items[k'].ingredients[i], k', after.owners, after.nextLineId)
  {
    var old_ := s.items[k].ingredients;
    var new_ := updated.ingredients;
    forall k', i | k' in after.items && 0 <= i < |after.items[k'].ingredients|
      ensures OwnedLine(after.items[k'].ingredients[i], k', after.owners, after.nextLineId)
    {
      if k' != k {
        assert OwnedLine(s.items[k'].ingredients[i], k', s.owners, s.nextLineId);
      } else if i < |old_| {
        assert new_[i] == old_[i];
        assert OwnedLine(old_[i], k', s.owners, s.nextLineId);
      }
    }
  }

  /** The appended line's id is fresh, so the list keeps distinct ids. */
  lemma AppendDistinct(s: Store, k: int, updated: FoodItem)
    requires s.Valid()
    requires k in s.items
    requires |updated.ingredients| == |s.items[k].ingredients| + 1
    requires updated.ingredients[..|s.items[k].ingredients|] == s.items[k].ingredients
    requires updated.ingredients[|s.items[k].ingredients|].id == Some(s.nextLineId)
    ensures DistinctIds(updated.ingredients)
  {
    var old_ := s.items[k].ingredients;
    var new_ := updated.ingredients;
    forall i, i' | 0 <= i < |new_| && 0 <= i' < |new_| && new_[i].id == new_[i'].id ensures i == i' {
      if i < |old_| {
        assert new_[i] == old_[i];
        assert OwnedLine(old_[i], k, s.owners, s.nextLineId);
      }
      if i' < |old_| {
        assert new_[i'] == old_[i'];
        assert OwnedLine(old_[i'], k, s.owners, s.nextLineId);
      }
    }
  }

  /** After the append every index entry still names a line its item's list holds. */
  lemma AppendListed(s: Store, k: int, updated: FoodItem, after: Store)
    requires s.Valid()
    requires k in s.items
    requires |updated.ingredients| == |s.items[k].ingredients| + 1
    requires updated.ingredients[..|s.items[k].ingredients|] == s.items[k].ingredients
    requires updated.ingredients[|s.items[k].ingredients|].id == Some(s.nextLineId)
    requires after == Store(s.items[k := updated], s.owners[s.nextLineId := k], s.nextId, s.nextLineId + 1)
    ensures forall j :: j in after.owners ==>
              after.owners[j] in after.items && FindLine(after.items[after.owners[j]].ingredients, j).Some?
  {
    var old_ := s.items[k].ingredients;
    var new_ := updated.ingredients;
    forall j | j in after.owners
      ensures after.owners[j] in after.items && FindLine(after.items[after.owners[j]].ingredients, j).Some?
    {
      if j == s.nextLineId {
        ListedLine(new_, new_[|old_|], j);
      } else if s.owners[j] == k {
        var line := FindLine(old_, j).value;
        var i :| 0 <= i < |old_| && old_[i] == line;
        assert new_[i] == line;
        ListedLine(new_, line, j);
      } else {
        assert after.items[after.owners[j]] == s.items[s.owners[j]];
      }
    }
  }

  /** The first line of the list stored under ingredient id `j`. */
  function FindLine(lines: seq<Ingredient>, j: int): (r: Option<Ingredient>)
    ensures r.Some? ==> r.value in lines && r.value.id == Some(j)
    ensures r.None? ==> forall i :: 0 <= i < |lines| ==> lines[i].id != Some(j)
    decreases |lines|
  {
    if |lines| == 0 then None
    else if lines[0].id == Some(j) then Some(lines[0])
    else FindLine(lines[1..], j)
  }

  /** A list holding a line stored under `j` is one FindLine finds it in. */
  lemma ListedLine(lines: seq<Ingredient>, line: Ingredient, j: int)
    requires line in lines && line.id == Some(j)
    ensures FindLine(lines, j).Some?
  {
    var i :| 0 <= i < |lines| && lines[i] == line;
  }

  /** removeIngredientFromFoodItem: the item must exist, then the ingredient
      ("Ingredient not found"), and the ingredient must belong to this item
      ("Ingredient does not belong to this food item"). Otherwise the line is
      dropped from the item's list and deleted from the ingredient table;
      nothing else changes. */
  function RemoveIngredientFromFoodItem(s: Store, foodItemId: int, ingredientId: int): (t: Tx<Store, ()>)
    ensures t.result.Err? ==> t.state == s
    ensures foodItemId !in s.items ==> t.result == Err(FoodItemNotFound(foodItemId))
    ensures foodItemId in s.items && ingredientId !in s.owners ==>
              t.result == Err(IngredientNotFound(ingredientId))
    ensures foodItemId in s.items && ingredientId in s.owners && s.owners[ingredientId] != foodItemId ==>
              t.result == Err(IngredientNotOwned)
    ensures t.result.Ok? <==>
              foodItemId in s.items && ingredientId in s.owners && s.owners[ingredientId] == foodItemId
    ensures s.Valid() ==> t.state.Valid()
  {
    match GetFoodItemById(s, foodItemId)
    case Err(e) => Commit(s, Err(e))
    case Ok(item) =>
      if ingredientId !in s.owners then Commit(s, Err(IngredientNotFound(ingredientId)))
      else if s.owners[ingredientId] != foodItemId then Commit(s, Err(IngredientNotOwned))
      else
        var updated := match FindLine(item.ingredients, ingredientId)
          case None => item
          case Some(line) => RemoveIngredient(item, line).0;
        var after := s.(items := s.items[foodItemId := updated], owners := s.owners - {ingredientId});
        assert s.Valid() ==> after.Valid() by {
          if s.Valid() {
            RemoveValid(s, foodItemId, ingredientId, after);
          }
        }
        Commit(s, Ok((after, ())))
  }

  /** What a successful removeIngredientFromFoodItem changes: the line
      leaves the index and, when the item's list holds a line stored under
      that id, the first such line leaves the list and the other lines keep
      their order; the item's other fields and every other item stay as
      they were. In a valid store the list always holds that line. */
  lemma RemoveIngredientEffect(s: Store, foodItemId: int, ingredientId: int)
    requires RemoveIngredientFromFoodItem(s, foodItemId, ingredientId).result.Ok?
    ensures foodItemId in s.items
    ensures var t := RemoveIngredientFromFoodItem(s, foodItemId, ingredientId).state;
            var before := s.items[foodItemId];
            && foodItemId in t.items
            && t.owners == s.owners - {ingredientId}
            && t.items.Keys == s.items.Keys
            && t.nextId == s.nextId && t.nextLineId == s.nextLineId
            && (forall k :: k in s.items && k != foodItemId ==> t.items[k] == s.items[k])
            && t.items[foodItemId].(ingredients := before.ingredients) == before
            && (FindLine(before.ingredients, ingredientId).None? ==> t.items[foodItemId] == before)
            && (FindLine(before.ingredients, ingredientId).Some? ==>
                  var line := FindLine(before.ingredients, ingredientId).value;
                  && multiset(t.items[foodItemId].ingredients) == multiset(before.ingredients) - multiset{line}
                  && t.items[foodItemId].ingredients ==
                       before.ingredients[..IndexOf(before.ingredients, line)] +
                       before.ingredients[IndexOf(before.ingredients, line) + 1..])
    ensures s.Valid() ==> FindLine(s.items[foodItemId].ingredients, ingredientId).Some?
  {
  }

  /** Dropping item `k` together with the lines it owns keeps the store valid. */
  lemma ReleaseValid(s: Store, k: int) returns (base: Store)
    requires s.Valid()
    ensures base == s.(items := s.items - {k}, owners := Release(s.owners, k))
    ensures base.Valid()
    ensures forall j :: j in base.owners ==> base.owners[j] != k
  {
    base := s.(items := s.items - {k}, owners := Release(s.owners, k));
    ReleaseOwned(s, k, base);
    forall j | j in base.owners
      ensures base.owners[j] in base.items && FindLine(base.items[base.owners[j]].ingredients, j).Some?
    {
      assert base.items[base.owners[j]] == s.items[s.owners[j]];
    }
  }

  /** Without item `k` and its lines every remaining line is still owned. */
  lemma ReleaseOwned(s: Store, k: int, base: Store)
    requires s.Valid()
    requires base == s.(items := s.items - {k}, owners := Release(s.owners, k))
    ensures forall k', i :: k' in base.items && 0 <= i < |base.items[k'].ingredients| ==>
              OwnedLine(base.items[k'].ingredients[i], k', base.owners, base.nextLineId)
  {
    forall k', i | k' in base.items && 0 <= i < |base.items[k'].ingredients|
      ensures OwnedLine(base.items[k'].ingredients[i], k', base.owners, base.nextLineId)
    {
      assert OwnedLine(s.items[k'].ingredients[i], k', s.owners, s.nextLineId);
    }
  }

  /** Replacing the lines of item `fid` by a list drawn from its old lines,
      keeping all of them but the ones stored under `j`, and dropping `j`
      from the index, keeps the store valid. */
  lemma ShrinkValid(s: Store, fid: int, j: int, rest: seq<Ingredient>, after: Store)
    requires s.Valid()
    requires fid in s.items && j in s.owners && s.owners[j] == fid
    requires forall m :: 0 <= m < |rest| ==> rest[m] in s.items[fid].ingredients && rest[m].id != Some(j)
    requires forall m :: 0 <= m < |s.items[fid].ingredients| && s.items[fid].ingredients[m].id != Some(j) ==>
               s.items[fid].ingredients[m] in rest
    requires DistinctIds(rest)
    requires after == s.(items := s.items[fid := s.items[fid].(ingredients := rest)], owners := s.owners - {j})
    ensures after.Valid()
  {
    forall k, i | k in after.items && 0 <= i < |after.items[k].ingredients|
      ensures OwnedLine(after.items[k].ingredients[i], k, after.owners, after.nextLineId)
    {
      if k != fid {
        assert OwnedLine(s.items[k].ingredients[i], k, s.owners, s.nextLineId);
      } else {
        var before := s.items[fid].ingredients;
        var i0 :| 0 <= i0 < |before| && before[i0] == rest[i];
        assert OwnedLine(before[i0], k, s.owners, s.nextLineId);
      }
    }
    forall j' | j' in after.owners
      ensures FindLine(after.items[after.owners[j']].ingredients, j').Some?
    {
      if s.owners[j'] == fid {
        var line := FindLine(s.items[fid].ingredients, j').value;
        ListedLine(rest, line, j');
      } else {
        assert after.items[after.owners[j']] == s.items[s.owners[j']];
      }
    }
  }

  /** Splicing out the first line stored under `j` leaves a list of old
      lines with distinct ids, none stored under `j`, that keeps every
      other line. */
  lemma SpliceLine(before: seq<Ingredient>, j: int, p: nat, rest: seq<Ingredient>)
    requires DistinctIds(before)
    requires p < |before| && before[p].id == Some(j)
    requires rest == before[..p] + before[p + 1..]
    ensures forall m :: 0 <= m < |rest| ==> rest[m] in before && rest[m].id != Some(j)
    ensures forall m :: 0 <= m < |before| && before[m].id != Some(j) ==> before[m] in rest
    ensures DistinctIds(rest)
  {
    assert forall m :: 0 <= m < |rest| ==> rest[m] == before[if m < p then m else m + 1];
    forall m | 0 <= m < |before| && before[m].id != Some(j) ensures before[m] in rest {
      if m < p { assert rest[m] == before[m]; } else { assert rest[m - 1] == before[m]; }
    }
  }

  /** Dropping line `j` from its owner's list and from the ingredient index
      keeps the store valid: the index entry guarantees the list holds the
      line, and line ids are unique, so no other line of that list carries
      `j`. */
  lemma RemoveValid(s: Store, fid: int, j: int, after: Store)
    requires s.Valid()
    requires fid in s.items && j in s.owners && s.owners[j] == fid
    requires after.owners == s.owners - {j}
    requires after.nextId == s.nextId && after.nextLineId == s.nextLineId
    requires after.items == s.items[fid := match FindLine(s.items[fid].ingredients, j)
                                             case None => s.items[fid]
                                             case Some(line) => RemoveIngredient(s.items[fid], line).0]
    ensures after.Valid()
  {
    var before := s.items[fid].ingredients;
    match FindLine(before, j)
    case None =>
      assert false;
    case Some(line) =>
      var p := IndexOf(before, line);
      var rest := RemoveFirst(before, line);
      SpliceLine(before, j, p, rest);
      ShrinkValid(s, fid, j, rest, after);
  }

  /** Removing the line that addIngredientToFoodItem just stored gives back
      the store as it was, apart from the spent identity value. */
  lemma AddThenRemove(s: Store, ms: MaterialService.Store, foodItemId: int, line: Ingredient)
    requires s.Valid()
    requires AddIngredientToFoodItem(s, ms, foodItemId, line).result.Ok?
    ensures var added := AddIngredientToFoodItem(s, ms, foodItemId, line).state;
            var removed := RemoveIngredientFromFoodItem(added, foodItemId, s.nextLineId);
            removed.result.Ok? && removed.state == s.(nextLineId := s.nextLineId + 1)
  {
    var item := s.items[foodItemId];
    var last := AddedLine(s, ms, foodItemId, line);
    var added := AddIngredientToFoodItem(s, ms, foodItemId, line).state;
    forall i | 0 <= i < |item.ingredients| ensures item.ingredients[i].id != Some(s.nextLineId) {
      assert OwnedLine(item.ingredients[i], foodItemId, s.owners, s.nextLineId);
    }
    RemoveAdded(item, last);
    UndoAddedStore(s, foodItemId, item.(ingredients := item.ingredients + [last]), added);
    RemoveComputes(added, foodItemId, s.nextLineId, last);
  }

  /** The line addIngredientToFoodItem appends, as stored. */
  lemma AddedLine(s: Store, ms: MaterialService.Store, foodItemId: int, line: Ingredient)
    returns (last: Ingredient)
    requires s.Valid()
    requires AddIngredientToFoodItem(s, ms, foodItemId, line).result.Ok?
    ensures foodItemId in s.items
    ensures var item := s.items[foodItemId];
            var added := AddIngredientToFoodItem(s, ms, foodItemId, line).state;
            && last.id == Some(s.nextLineId) && last.owner == item.id
            && added == Store(s.items[foodItemId := item.(ingredients := item.ingredients + [last])],
                              s.owners[s.nextLineId := foodItemId], s.nextId, s.nextLineId + 1)
  {
    var item := s.items[foodItemId];
    var m := ms.rows[line.materialId];
    last := line.(id := Some(s.nextLineId), owner := item.id, materialName := Some(m.name));
  }

  /** The appended line is the one found under its id, and removing it
      gives back the item as it was. */
  lemma RemoveAdded(item: FoodItem, last: Ingredient)
    requires last.id.Some? && last.owner == item.id
    requires forall i :: 0 <= i < |item.ingredients| ==> item.ingredients[i].id != last.id
    ensures FindLine(item.ingredients + [last], last.id.value) == Some(last)
    ensures RemoveIngredient(item.(ingredients := item.ingredients + [last]), last).0 == item
  {
    var lines := item.ingredients + [last];
    assert forall i :: 0 <= i < |item.ingredients| ==> lines[i] == item.ingredients[i];
    FindLast(lines, last.id.value);
    RemoveFreshLine(item, last);
  }

  /** Putting back the item and dropping the fresh line from the index
      undoes the store update of addIngredientToFoodItem. */
  lemma UndoAddedStore(s: Store, foodItemId: int, item': FoodItem, added: Store)
    requires foodItemId in s.items && s.nextLineId !in s.owners
    requires added == Store(s.items[foodItemId := item'], s.owners[s.nextLineId := foodItemId],
                            s.nextId, s.nextLineId + 1)
    ensures added.(items := added.items[foodItemId := s.items[foodItemId]],
                   owners := added.owners - {s.nextLineId}) == s.(nextLineId := s.nextLineId + 1)
  {
    assert added.owners - {s.nextLineId} == s.owners;
    assert added.items[foodItemId := s.items[foodItemId]] == s.items;
  }

  /** A line whose id no line of the item carries, appended and then
      removed, leaves the item as it was. */
  lemma RemoveFreshLine(item: FoodItem, line: Ingredient)
    requires forall i :: 0 <= i < |item.ingredients| ==> item.ingredients[i].id != line.id
    requires line.owner == item.id
    ensures RemoveIngredient(item.(ingredients := item.ingredients + [line]), line).0 == item
  {
    assert line !in item.ingredients;
    RemoveUndoesAdd(item, line);
  }

  /** The success path of removeIngredientFromFoodItem, as one equation. */
  lemma RemoveComputes(s: Store, foodItemId: int, j: int, line: Ingredient)
    requires foodItemId in s.items && j in s.owners && s.owners[j] == foodItemId
    requires FindLine(s.items[foodItemId].ingredients, j) == Some(line)
    ensures RemoveIngredientFromFoodItem(s, foodItemId, j) ==
            Tx(s.(items := s.items[foodItemId := RemoveIngredient(s.items[foodItemId], line).0],
                  owners := s.owners - {j}), Ok(()))
  {
  }

  /** A line stored under `j` that is preceded by no other such line is the
      one FindLine returns. */
  lemma {:induction false} FindLast(lines: seq<Ingredient>, j: int)
    requires |lines| > 0 && lines[|lines| - 1].id == Some(j)
    requires forall i :: 0 <= i < |lines| - 1 ==> lines[i].id != Some(j)
    ensures FindLine(lines, j) == Some(lines[|lines| - 1])
    decreases |lines|
  {
    if lines[0].id != Some(j) {
      FindLast(lines[1..], j);
    }
  }

  /** Deleting the item createFoodItem just stored gives back the tables as
      they were: no sale can point at an item that did not exist before,
      and the cascade takes exactly the lines the create added. */
  lemma CreateThenDelete(s: Store, ms: MaterialService.Store, f: FoodItem, sold: set<int>)
    requires s.Valid()
    requires forall k :: k in sold ==> k in s.items
    requires CreateFoodItem(s, ms, f).result.Ok?
    ensures var created := CreateFoodItem(s, ms, f).state;
            var deleted := DeleteFoodItem(created, s.nextId, sold);
            deleted.result.Ok? && deleted.state.items == s.items && deleted.state.owners == s.owners
  {
    var t := CreateFoodItem(s, ms, f);
    var created := t.state;
    IndexBelowNext(s);
    assert s.nextId !in sold;
    var deleted := DeleteFoodItem(created, s.nextId, sold).state;
    PutThenDrop(s.items, s.nextId, t.result.value);
    RestoredIndex(s.owners, created.owners, deleted.owners, s.nextId, s.nextLineId, |f.ingredients|);
  }

  /** Adding a key a map lacks and then removing it gives back the map. */
  lemma PutThenDrop<V>(m: map<int, V>, k: int, v: V)
    requires k !in m
    ensures m[k := v] - {k} == m
  {
    assert (m[k := v] - {k}).Keys == m.Keys;
  }

  /** Claiming `n` fresh line ids for a new item and then releasing that
      item's lines gives back the index as it was. */
  lemma RestoredIndex(owners: map<int, int>, claimed: map<int, int>, released: map<int, int>,
                      k: int, firstId: int, n: nat)
    requires forall j :: j in owners ==> j < firstId && owners[j] != k
    requires forall j :: j in claimed <==> j in owners || firstId <= j < firstId + n
    requires forall j :: j in owners ==> claimed[j] == owners[j]
    requires forall j :: firstId <= j < firstId + n ==> claimed[j] == k
    requires forall j :: j in released <==> j in claimed && claimed[j] != k
    requires forall j :: j in released ==> released[j] == claimed[j]
    ensures released == owners
  {
    forall j | j in released ensures j in owners {
      assert j in claimed && claimed[j] != k;
    }
    forall j | j in owners ensures j in released && released[j] == owners[j] {
      assert j in claimed && claimed[j] == owners[j];
    }
    assert released.Keys == owners.Keys;
  }

  /** In a valid store the index names only handed-out line ids and items
      other than the next one. */
  lemma IndexBelowNext(s: Store)
    requires s.Valid()
    ensures s.nextId !in s.items
    ensures forall j :: j in s.owners ==> j < s.nextLineId && s.owners[j] != s.nextId
  {
    forall j | j in s.owners ensures j < s.nextLineId && s.owners[j] != s.nextId {
      var k := s.owners[j];
      assert k in s.items;
      assert s.items[k].id == Some(k) && k < s.nextId;
    }
  }

  /** getFoodItemById reads back what createFoodItem stored: the item under
      its new id, with every line recorded in the ingredient index as owned
      by it. */
  lemma CreateThenGet(s: Store, ms: MaterialService.Store, f: FoodItem)
    requires s.Valid()
    requires CreateFoodItem(s, ms, f).result.Ok?
    ensures var created := CreateFoodItem(s, ms, f);
            var saved := created.result.value;
            && GetFoodItemById(created.state, s.nextId) == Ok(saved)
            && forall i :: 0 <= i < |saved.ingredients| ==>
                 OwnedLine(saved.ingredients[i], s.nextId, created.state.owners, created.state.nextLineId)
  {
    var created := CreateFoodItem(s, ms, f);
    assert created.state.Valid();
    assert s.nextId in created.state.items;
  }

  /** After a delete that went through, the id is not found. */
  lemma DeleteThenGet(s: Store, id: int, sold: set<int>)
    requires DeleteFoodItem(s, id, sold).result.Ok?
    ensures GetFoodItemById(DeleteFoodItem(s, id, sold).state, id) == Err(FoodItemNotFound(id))
  {
  }

  // ---------------------------------------------------------------------------
  // The ingredient table's material_id foreign key
  // ---------------------------------------------------------------------------

  /** The material ids the stored recipe lines point at. */
  function MaterialsInUse(s: Store): (r: set<int>)
    ensures forall k, i :: k in s.items && 0 <= i < |s.items[k].ingredients| ==>
              s.items[k].ingredients[i].materialId in r
    ensures forall m :: m in r ==>
              exists k, i :: (k in s.items && 0 <= i < |s.items[k].ingredients| &&
                              s.items[k].ingredients[i].materialId == m)
  {
    set k, i | k in s.items && 0 <= i < |s.items[k].ingredients| :: s.items[k].ingredients[i].materialId
  }

  /** Every recipe line points at a stored material. */
  ghost predicate MaterialsStored(s: Store, ms: MaterialService.Store) {
    forall k, i :: k in s.items && 0 <= i < |s.items[k].ingredients| ==>
      s.items[k].ingredients[i].materialId in ms.rows
  }

  /** A material some recipe line uses cannot be deleted. */
  lemma DeleteUsedMaterialFails(s: Store, ms: MaterialService.Store, k: int, i: int)
    requires k in s.items && 0 <= i < |s.items[k].ingredients|
    requires s.items[k].ingredients[i].materialId in ms.rows
    ensures var m := s.items[k].ingredients[i].materialId;
            MaterialService.DeleteMaterial(ms, m, MaterialsInUse(s)) == Tx(ms, Err(ForeignKeyViolation))
  {
  }

  /** The foreign key keeps the recipes whole: whatever deleteMaterial is
      asked to remove, every line still points at a stored material. */
  lemma DeleteMaterialKeepsRecipes(s: Store, ms: MaterialService.Store, id: int)
    requires MaterialsStored(s, ms)
    ensures MaterialsStored(s, MaterialService.DeleteMaterial(ms, id, MaterialsInUse(s)).state)
  {
  }

  /** createFoodItem only writes lines whose material is stored, so it keeps
      every recipe pointing at stored materials. */
  lemma CreateKeepsRecipes(s: Store, ms: MaterialService.Store, f: FoodItem)
    requires s.Valid() && MaterialsStored(s, ms)
    ensures MaterialsStored(CreateFoodItem(s, ms, f).state, ms)
  {
  }

  /** updateFoodItem looks up every new line's material, so it keeps every
      recipe pointing at stored materials. */
  lemma UpdateKeepsRecipes(s: Store, ms: MaterialService.Store, id: int, f: FoodItem)
    requires MaterialsStored(s, ms)
    ensures MaterialsStored(UpdateFoodItem(s, ms, id, f).state, ms)
  {
  }

  /** addIngredientToFoodItem looks up the line's material first, so it
      keeps every recipe pointing at stored materials. */
  lemma AddKeepsRecipes(s: Store, ms: MaterialService.Store, foodItemId: int, line: Ingredient)
    requires MaterialsStored(s, ms)
    ensures MaterialsStored(AddIngredientToFoodItem(s, ms, foodItemId, line).state, ms)
  {
    var t := AddIngredientToFoodItem(s, ms, foodItemId, line);
    if t.result.Ok? {
      var old_ := s.items[foodItemId].ingredients;
      forall k, i | k in t.state.items && 0 <= i < |t.state.items[k].ingredients|
        ensures t.state.items[k].ingredients[i].materialId in ms.rows
      {
        if k == foodItemId && i < |old_| {
          assert t.result.value.ingredients[..|old_|][i] == old_[i];
        }
      }
    }
  }

  /** Only createFoodItem checks positivity: a zero-quantity line and a zero
      price are refused on create and accepted on update, and a negative
      line is accepted by addIngredientToFoodItem. */
  lemma OnlyCreateChecksPositivity()
    ensures var ms := MaterialService.Store(map[1 := Material(Some(1), "Flour", "kg", 50.0, 100.0, 0)], 2);
            var s := Store(map[1 := FoodItem(Some(1), "Pandesal", 5.0, [])], map[], 2, 1);
            var line := Ingredient(None, None, 1, None, 0.0);
            && CreateFoodItem(s, ms, FoodItem(None, "Pandesal", 5.0, [line])).result ==
               Err(IngredientQuantityNotPositive)
            && CreateFoodItem(s, ms, FoodItem(None, "Pandesal", 0.0, [])).result ==
               Err(PricePerServingNotPositive)
            && UpdateFoodItem(s, ms, 1, FoodItem(None, "Pandesal", 0.0, [line])).result.Ok?
            && AddIngredientToFoodItem(s, ms, 1, line.(quantityRequired := -1.0)).result.Ok?
  {
    var ms := MaterialService.Store(map[1 := Material(Some(1), "Flour", "kg", 50.0, 100.0, 0)], 2);
    var line := Ingredient(None, None, 1, None, 0.0);
    assert !LineAccepted(ms, [line][0], true);
  }
}
