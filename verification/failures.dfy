/** The exceptions the services throw, and how a transactional service call
    reports them. Every service method of the source throws a
    RuntimeException with a fixed message; here that is an Err carrying an
    Error, whose Message is the source's text. */
module Failures {
  import opened JavaText

  datatype Error =
    | MaterialNotFound(materialId: int)
    | FoodItemNotFound(foodItemId: int)
    | SaleNotFound(saleId: int)
    | IngredientNotFound(ingredientId: int)
    | IngredientNotOwned
    | QuantityNegative
    | PricePerUnitNotPositive
    | PricePerServingNotPositive
    | IngredientQuantityNotPositive
    | QuantitySoldNotPositive
    | SalePriceNotPositive
    | InsufficientStock(materialName: string, available: real, required: real)
    | InvalidPeriod
      /** JVM-raised exceptions the chat dispatcher can meet. */
    | NullReference
    | ClassCast
    | NumberFormat(input: string)
    | DecimalFormat(input: string)
      /** A delete the schema refuses at flush: a row another table's
          foreign key still points at. */
    | ForeignKeyViolation

  /** The exception message. BigDecimal amounts inside the insufficient-stock
      message and JVM-generated texts are not rendered. */
  function Message(e: Error): string {
    match e
    case MaterialNotFound(id) => "Material not found with id: " + IntToString(id)
    case FoodItemNotFound(id) => "Food item not found with id: " + IntToString(id)
    case SaleNotFound(id) => "Sale not found with id: " + IntToString(id)
    case IngredientNotFound(id) => "Ingredient not found with id: " + IntToString(id)
    case IngredientNotOwned => "Ingredient does not belong to this food item"
    case QuantityNegative => "Quantity cannot be negative"
    case PricePerUnitNotPositive => "Price per unit must be greater than zero"
    case PricePerServingNotPositive => "Price per serving must be greater than zero"
    case IngredientQuantityNotPositive => "Ingredient quantity must be greater than zero"
    case QuantitySoldNotPositive => "Quantity sold must be greater than zero"
    case SalePriceNotPositive => "Sale price must be greater than zero"
    case InsufficientStock(name, _, _) => "Insufficient stock for material: " + name
    case InvalidPeriod => "Invalid period. Valid values: today, 2days, week, month, year"
    case NullReference => "NullPointerException"
    case ClassCast => "ClassCastException"
    case NumberFormat(input) => "For input string: \"" + input + "\""
    case DecimalFormat(_) => "NumberFormatException"
    case ForeignKeyViolation => "DataIntegrityViolationException"
  }

  datatype Result<+T> = Ok(value: T) | Err(error: Error)

  /** What a call to a @Transactional service method leaves behind: the
      state after commit or rollback, and the returned value or exception. */
  datatype Tx<+S, +T> = Tx(state: S, result: Result<T>)

  /** Commit on success, roll back on an exception: a failed step hands back
      the state as it was before the call, whatever it had written. */
  function Commit<S, T>(before: S, r: Result<(S, T)>): (t: Tx<S, T>)
    ensures t.result.Err? <==> r.Err?
    ensures r.Err? ==> t.state == before && t.result.error == r.error
    ensures r.Ok? ==> t.state == r.value.0 && t.result.value == r.value.1
  {
    match r
    case Ok((after, v)) => Tx(after, Ok(v))
    case Err(e) => Tx(before, Err(e))
  }
}
