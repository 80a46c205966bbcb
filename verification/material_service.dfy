/** MaterialServiceImpl over an id-keyed material table: lookup, create with
    its two input checks, update by overwrite, delete, the low-stock filter
    (MaterialRepository.findByQuantityLessThan) and the guarded stock
    deduction that is the only guard against negative stock. */
module MaterialService {
  import opened Nullable
  import opened Failures
  import opened Entities

  /** The materials table. `nextId` is the next identity value the database
      hands out. */
  datatype Store = Store(rows: map<int, Material>, nextId: int) {
    /** Every row is stored under its own id, and every id was handed out. */
    ghost predicate Valid() {
      forall k :: k in rows ==> rows[k].id == Some(k) && k < nextId
    }
  }

  /** No material has negative stock. */
  ghost predicate NonNegativeStock(rows: map<int, Material>) {
    forall k :: k in rows ==> rows[k].quantity >= 0.0
  }

  /** getMaterialById: the stored row, or "Material not found". */
  function GetMaterialById(s: Store, id: int): (r: Result<Material>)
    ensures r.Ok? <==> id in s.rows
    ensures r.Ok? ==> r.value == s.rows[id]
    ensures r.Err? ==> r.error == MaterialNotFound(id)
  {
    if id in s.rows then Ok(s.rows[id]) else Err(MaterialNotFound(id))
  }

  /** The checks createMaterial makes, in order: quantity first, then price. */
  function CreateCheck(m: Material): (r: Option<Error>)
    ensures r == None <==> m.quantity >= 0.0 && m.pricePerUnit > 0.0
    ensures m.quantity < 0.0 ==> r == Some(QuantityNegative)
    ensures m.quantity >= 0.0 && m.pricePerUnit <= 0.0 ==> r == Some(PricePerUnitNotPositive)
  {
    if m.quantity < 0.0 then Some(QuantityNegative)
    else if m.pricePerUnit <= 0.0 then Some(PricePerUnitNotPositive)
    else None
  }

  /** createMaterial: rejects negative stock (zero is accepted) and a price
      that is not positive, otherwise stores the material under a fresh id
      and returns it. The request's own id is not consulted. */
  function CreateMaterial(s: Store, m: Material): (t: Tx<Store, Material>)
    requires s.Valid()
    ensures t.state.Valid()
    ensures t.result.Err? ==> t.state == s
    ensures m.quantity < 0.0 ==> t.result == Err(QuantityNegative)
    ensures m.quantity >= 0.0 && m.pricePerUnit <= 0.0 ==> t.result == Err(PricePerUnitNotPositive)
    ensures t.result.Ok? <==> m.quantity >= 0.0 && m.pricePerUnit > 0.0
    ensures t.result.Ok? ==>
              s.nextId !in s.rows &&
              t.result.value == m.(id := Some(s.nextId)) &&
              t.state.rows == s.rows[s.nextId := t.result.value] &&
              t.state.nextId > s.nextId
  {
    match CreateCheck(m)
    case Some(e) => Commit(s, Err(e))
    case None =>
      var saved := m.(id := Some(s.nextId));
      Commit(s, Ok((Store(s.rows[s.nextId := saved], s.nextId + 1), saved)))
  }

  /** updateMaterial: the stored row keeps its id and takes every other
      field from `m`. No value is checked. */
  function UpdateMaterial(s: Store, id: int, m: Material): (t: Tx<Store, Material>)
    ensures t.result.Err? ==> t.state == s
    ensures t.result.Err? <==> id !in s.rows
    ensures t.result.Err? ==> t.result.error == MaterialNotFound(id)
    ensures t.result.Ok? ==>
              t.result.value.id == s.rows[id].id &&
              t.result.value.(id := m.id) == m &&
              t.state == s.(rows := s.rows[id := t.result.value])
    ensures s.Valid() ==> t.state.Valid()
  {
    match GetMaterialById(s, id)
    case Err(e) => Commit(s, Err(e))
    case Ok(existing) =>
      var updated := m.(id := existing.id);
      Commit(s, Ok((s.(rows := s.rows[id := updated]), updated)))
  }

  /** deleteMaterial: "Material not found" for an absent id. Otherwise the
      row goes and every other stays, unless a recipe line still points at
      it: `inUse` holds the material ids the ingredient table references,
      and its non-null material_id foreign key makes the delete fail at
      flush, rolling the call back. */
  function DeleteMaterial(s: Store, id: int, inUse: set<int>): (t: Tx<Store, ()>)
    ensures t.result.Err? ==> t.state == s
    ensures id !in s.rows ==> t.result == Err(MaterialNotFound(id))
    ensures id in s.rows && id in inUse ==> t.result == Err(ForeignKeyViolation)
    ensures t.result.Ok? <==> id in s.rows && id !in inUse
    ensures t.result.Ok? ==> t.state.rows == s.rows - {id} && t.state.nextId == s.nextId
    ensures s.Valid() ==> t.state.Valid()
  {
    if id !in s.rows then Commit(s, Err(MaterialNotFound(id)))
    else if id in inUse then Commit(s, Err(ForeignKeyViolation))
    else Commit(s, Ok((s.(rows := s.rows - {id}), ())))
  }

  /** getLowStockMaterials: exactly the rows whose stock is strictly below
      the threshold. */
  function GetLowStockMaterials(s: Store, threshold: real): (r: map<int, Material>)
    ensures forall k :: k in r <==> k in s.rows && s.rows[k].quantity < threshold
    ensures forall k :: k in r ==> r[k] == s.rows[k]
  {
    map k | k in s.rows && s.rows[k].quantity < threshold :: s.rows[k]
  }

  /** The guarded deduction on a table: "Material not found" for an absent
      id; "Insufficient stock" exactly when the stock would drop below zero;
      otherwise that one row's quantity becomes old minus amount and nothing
      else changes. */
  function Deduct(rows: map<int, Material>, id: int, amount: real): (r: Result<map<int, Material>>)
    ensures id !in rows ==> r == Err(MaterialNotFound(id))
    ensures id in rows && rows[id].quantity - amount < 0.0 ==>
              r == Err(InsufficientStock(rows[id].name, rows[id].quantity, amount))
    ensures r.Ok? <==> id in rows && rows[id].quantity - amount >= 0.0
    ensures r.Ok? ==> r.value == rows[id := rows[id].(quantity := rows[id].quantity - amount)]
    ensures r.Ok? && NonNegativeStock(rows) ==> NonNegativeStock(r.value)
  {
    if id !in rows then Err(MaterialNotFound(id))
    else
      var newQuantity := rows[id].quantity - amount;
      if newQuantity < 0.0 then Err(InsufficientStock(rows[id].name, rows[id].quantity, amount))
      else Ok(rows[id := rows[id].(quantity := newQuantity)])
  }

  /** deductStock as its own transaction: on failure the stored stock is
      unchanged. */
  function DeductStock(s: Store, id: int, amount: real): (t: Tx<Store, ()>)
    ensures t.result.Err? ==> t.state == s
    ensures t.result.Ok? <==> id in s.rows && s.rows[id].quantity - amount >= 0.0
    ensures t.result.Ok? ==>
              t.state.nextId == s.nextId &&
              t.state.rows.Keys == s.rows.Keys &&
              t.state.rows[id].quantity == s.rows[id].quantity - amount &&
              t.state.rows[id].(quantity := s.rows[id].quantity) == s.rows[id] &&
              (forall k :: k in s.rows && k != id ==> t.state.rows[k] == s.rows[k])
    ensures t.result.Ok? && NonNegativeStock(s.rows) ==> NonNegativeStock(t.state.rows)
    ensures s.Valid() ==> t.state.Valid()
  {
    match Deduct(s.rows, id, amount)
    case Err(e) => Commit(s, Err(e))
    case Ok(rows) => Commit(s, Ok((s.(rows := rows), ())))
  }

  /** Deducting the whole stock leaves exactly zero and is allowed. */
  lemma DeductWholeStock(s: Store, id: int)
    requires id in s.rows
    ensures DeductStock(s, id, s.rows[id].quantity).result.Ok?
    ensures DeductStock(s, id, s.rows[id].quantity).state.rows[id].quantity == 0.0
  {
  }

  /** Deleting the material createMaterial just stored gives back the table
      as it was, apart from the spent identity value: no recipe line can
      point at a row that did not exist before. */
  lemma CreateThenDelete(s: Store, m: Material, inUse: set<int>)
    requires s.Valid()
    requires forall k :: k in inUse ==> k in s.rows
    requires CreateMaterial(s, m).result.Ok?
    ensures var created := CreateMaterial(s, m);
            var deleted := DeleteMaterial(created.state, created.result.value.id.value, inUse);
            deleted.result.Ok? && deleted.state.rows == s.rows
  {
    var created := CreateMaterial(s, m);
    assert s.nextId !in inUse;
    assert created.state.rows - {s.nextId} == s.rows;
  }

  /** getMaterialById reads back what createMaterial stored, under the id
      it was given. */
  lemma CreateThenGet(s: Store, m: Material)
    requires s.Valid()
    requires CreateMaterial(s, m).result.Ok?
    ensures var created := CreateMaterial(s, m);
            GetMaterialById(created.state, created.result.value.id.value) == Ok(created.result.value)
  {
  }

  /** After a delete that went through, the id is not found. */
  lemma DeleteThenGet(s: Store, id: int, inUse: set<int>)
    requires DeleteMaterial(s, id, inUse).result.Ok?
    ensures GetMaterialById(DeleteMaterial(s, id, inUse).state, id) == Err(MaterialNotFound(id))
  {
  }

  /** Updating a material with its own stored values changes nothing. */
  lemma UpdateWithStoredRow(s: Store, id: int)
    requires s.Valid() && id in s.rows
    ensures UpdateMaterial(s, id, s.rows[id]) == Tx(s, Ok(s.rows[id]))
  {
    assert s.rows[id := s.rows[id]] == s.rows;
  }

  /** Two deductions from one material that both go through take off the
      same as one deduction of their sum. */
  lemma DeductionsAdd(s: Store, id: int, a: real, b: real)
    requires DeductStock(s, id, a).result.Ok?
    requires DeductStock(DeductStock(s, id, a).state, id, b).result.Ok?
    ensures DeductStock(s, id, a + b).result.Ok?
    ensures DeductStock(DeductStock(s, id, a).state, id, b).state == DeductStock(s, id, a + b).state
  {
    var once := DeductStock(s, id, a).state;
    assert once.rows[id].quantity == s.rows[id].quantity - a;
    assert once.rows[id].quantity - b == s.rows[id].quantity - (a + b);
    assert once.rows[id := once.rows[id].(quantity := once.rows[id].quantity - b)] ==
           s.rows[id := s.rows[id].(quantity := s.rows[id].quantity - (a + b))];
  }

  /** updateMaterial does no validation: a negative quantity is stored as
      given, so non-negative stock is kept only by create and deduct. */
  lemma UpdateAcceptsNegativeStock()
    ensures var s := Store(map[1 := Material(Some(1), "Flour", "kg", 50.0, 100.0, 0)], 2);
            var t := UpdateMaterial(s, 1, Material(None, "Flour", "kg", 50.0, -5.0, 0));
            t.result.Ok? && !NonNegativeStock(t.state.rows)
  {
  }
}
