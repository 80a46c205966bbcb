# Sales and inventory REST API with an AI chat front end — a Dafny model

The system is a Spring Boot back end for a small food business. It keeps
four tables:

- raw **materials**, with a unit price and the quantity in stock;
- **food items**, each with a recipe of **ingredient** lines, where a line
  is an amount of one material per serving;
- recorded **sales**;
- a hidden ingredient table behind the recipes.

Recording a sale deducts every recipe line's requirement from stock, in
one transaction, and stores the sale with its ingredient cost and profit.
Reports read the sale table:

- profit and revenue over a named period;
- a sales summary;
- a low-stock report;
- a top-sellers ranking.

A chat endpoint forwards the user's message to a language model. It
strips code fences from the model's reply, reads the reply as a JSON
object, and dispatches the action the reply names to the services above.

The model is functional. Each table is an immutable map keyed by id,
with a counter for the next identity value. Each service call is a
function from the tables to new tables and a `Result`:

- `Failures.Tx` and `Failures.Commit` give the roll-back semantics of
  `@Transactional`: a failed call hands back the tables as they were.
- Every `RuntimeException` of the source becomes an `Err` carrying an
  `Error`. `Failures.Message` gives its text as the source writes it.
- `BigDecimal` amounts are `real` and timestamps are `int` seconds.
- Java `null` is `Nullable.Option`.

The modules follow the source layout:

| module | models |
|---|---|
| `Entities` | the entities and `FoodItem.addIngredient` / `removeIngredient` |
| `MaterialService` | `MaterialServiceImpl` and `MaterialRepository.findByQuantityLessThan` |
| `FoodItemService` | `FoodItemServiceImpl`, with the ingredient table as an id-to-owner index |
| `SaleService` | `SaleServiceImpl` and the stock-deduction loop, with a reference definition of what a recipe demands |
| `SaleRepository` | the five `SaleRepository` queries |
| `ReportService` | `ReportServiceImpl` |
| `Dto` | the four DTOs and their bean-validation annotations |
| `DtoMapper` | `DTOMapper` |
| `ChatDispatcher` | `AIServiceImpl.parseAndExecute` and `executeAction` |
| `JavaText` | the `String`, `Integer.parseInt` and `new BigDecimal(String)` behaviour these rely on |

Source paths below are relative to the repository root.

## Model

| member | source | states |
|---|---|---|
| Failures.Commit | src/main/java/com/project/sales_and_inventory_with_ai/service/SaleServiceImpl.java:17 | a failed transactional call leaves the state as it was before the call and reports the error; a successful one keeps the new state and the value |
| Entities.NewFoodItem | src/main/java/com/project/sales_and_inventory_with_ai/entity/FoodItem.java:30 | a new food item starts with an empty ingredient list |
| Entities.AddIngredient | src/main/java/com/project/sales_and_inventory_with_ai/entity/FoodItem.java:33-36 | the line is appended after the old lines, which stay as they were; only its owner changes, to the item; no other field of the item changes |
| Entities.RemoveFirst | src/main/java/com/project/sales_and_inventory_with_ai/entity/FoodItem.java:40 | `List.remove(Object)`: the first occurrence of the element leaves the list, the elements before and after it keep their order (so the multiset loses exactly one copy); a list without it is unchanged |
| Entities.RemoveIngredient | src/main/java/com/project/sales_and_inventory_with_ai/entity/FoodItem.java:39-42 | the item's lines lose the first occurrence of the line, the others keep their order, a list without the line is unchanged, the item's other fields stay, and the detached line has no owner |
| Entities.RemoveUndoesAdd | src/main/java/com/project/sales_and_inventory_with_ai/entity/FoodItem.java:33-42 | removing a freshly added line that occurs nowhere else gives back the original item |
| MaterialService.GetMaterialById | src/main/java/com/project/sales_and_inventory_with_ai/service/MaterialServiceImpl.java:27-30 | the stored row exactly when the id is present, otherwise "Material not found" with that id |
| MaterialService.CreateCheck | src/main/java/com/project/sales_and_inventory_with_ai/service/MaterialServiceImpl.java:34-39 | accepts exactly a non-negative quantity with a positive price; the quantity is checked first |
| MaterialService.CreateMaterial | src/main/java/com/project/sales_and_inventory_with_ai/service/MaterialServiceImpl.java:33-41 | succeeds exactly when both checks pass, with the errors in source order; on success the material is stored under a fresh id and nothing else changes; on failure the table is unchanged; table validity is preserved; the request's ids are not consulted |
| MaterialService.UpdateMaterial | src/main/java/com/project/sales_and_inventory_with_ai/service/MaterialServiceImpl.java:44-54 | fails with "Material not found" exactly for an absent id; otherwise the row keeps its id and takes every other field from the request, with no check; validity is preserved |
| MaterialService.UpdateAcceptsNegativeStock | src/main/java/com/project/sales_and_inventory_with_ai/service/MaterialServiceImpl.java:44-54 | an update can store a negative quantity, so only create and deduct keep stock non-negative |
| MaterialService.UpdateWithStoredRow | src/main/java/com/project/sales_and_inventory_with_ai/service/MaterialServiceImpl.java:44-54 | updating a material with its own stored values changes nothing |
| MaterialService.DeleteMaterial | src/main/java/com/project/sales_and_inventory_with_ai/service/MaterialServiceImpl.java:57-62 | "Material not found" for an absent id; a foreign-key failure, with nothing changed, when a recipe line still points at the material; otherwise exactly that row goes |
| MaterialService.CreateThenDelete | src/main/java/com/project/sales_and_inventory_with_ai/service/MaterialServiceImpl.java:33-62 | deleting the material just created restores the table, since no recipe line can point at it |
| MaterialService.CreateThenGet | src/main/java/com/project/sales_and_inventory_with_ai/service/MaterialServiceImpl.java:27-41 | getMaterialById finds the created material under the id it was given |
| MaterialService.DeleteThenGet | src/main/java/com/project/sales_and_inventory_with_ai/service/MaterialServiceImpl.java:27-62 | after a delete that went through, getMaterialById reports the id as not found |
| MaterialService.GetLowStockMaterials | src/main/java/com/project/sales_and_inventory_with_ai/repository/MaterialRepository.java:16 | exactly the rows whose quantity is strictly below the threshold, unchanged |
| MaterialService.Deduct | src/main/java/com/project/sales_and_inventory_with_ai/service/MaterialServiceImpl.java:77-89 | "Material not found" for an absent id; "Insufficient stock" with the name, the stock and the amount exactly when the stock would go negative; otherwise only that row's quantity drops by the amount; non-negative stock is preserved |
| MaterialService.DeductStock | src/main/java/com/project/sales_and_inventory_with_ai/service/MaterialServiceImpl.java:77-89 | the same as a transaction: on failure the table is unchanged; on success the keys and every other row are the same and only the quantity of the target row changes |
| MaterialService.DeductionsAdd | src/main/java/com/project/sales_and_inventory_with_ai/service/MaterialServiceImpl.java:77-89 | two successful deductions from one material have the effect of one deduction of their sum, which also succeeds |
| MaterialService.DeductWholeStock | src/main/java/com/project/sales_and_inventory_with_ai/service/MaterialServiceImpl.java:80-86 | taking the whole stock is allowed and leaves exactly zero (the guard is strict) |
| FoodItemService.GetFoodItemById | src/main/java/com/project/sales_and_inventory_with_ai/service/FoodItemServiceImpl.java:32-35 | the stored item exactly when present, otherwise "Food item not found" |
| FoodItemService.ResolveLines | src/main/java/com/project/sales_and_inventory_with_ai/service/FoodItemServiceImpl.java:47-57 | succeeds exactly when every line names a stored material (and, on create, has a positive quantity); every line then carries its material's name; on failure the error is that of the first rejected line, material lookup before quantity |
| FoodItemService.Persist | src/main/java/com/project/sales_and_inventory_with_ai/service/FoodItemServiceImpl.java:58-59 | saved lines get consecutive fresh ids and the owning item, in order |
| FoodItemService.Claim | src/main/java/com/project/sales_and_inventory_with_ai/service/FoodItemServiceImpl.java:59 | the ingredient table gains exactly the new ids, owned by the item, and keeps every other entry |
| FoodItemService.Release | src/main/java/com/project/sales_and_inventory_with_ai/entity/FoodItem.java:29 | orphan removal: exactly the ingredient entries of the item leave the table |
| FoodItemService.CreateFoodItem | src/main/java/com/project/sales_and_inventory_with_ai/service/FoodItemServiceImpl.java:38-63 | a price that is not positive is refused first; the call succeeds exactly when the price is positive and every line is accepted; then the item is stored under a fresh id with its lines in order, each owned by it with its material and quantity; on failure everything rolls back; validity is preserved; the request's ids are not consulted |
| FoodItemService.StoreItem | src/main/java/com/project/sales_and_inventory_with_ai/service/FoodItemServiceImpl.java:44-62 | the created item gets the next id, keeps the request's name, price and lines in order, each owned by it with its material and quantity; validity carries over |
| FoodItemService.UpdateFoodItem | src/main/java/com/project/sales_and_inventory_with_ai/service/FoodItemServiceImpl.java:66-87 | "Food item not found" for an absent id; succeeds exactly when the item exists and every line names a stored material (no positivity check); name and price are overwritten and the lines replaced in order; the item owns only the new lines afterwards; validity is preserved; the request's ids are not consulted |
| FoodItemService.ReplaceLines | src/main/java/com/project/sales_and_inventory_with_ai/service/FoodItemServiceImpl.java:69-86 | the updated item keeps its id, takes the request's name, price and lines in order, each owned by it under a fresh id; the index then attributes to it only the new lines; validity carries over |
| FoodItemService.DeleteFoodItem | src/main/java/com/project/sales_and_inventory_with_ai/service/FoodItemServiceImpl.java:90-95 | "Food item not found" for an absent id; a foreign-key failure, with nothing changed, when a sale still points at the item; otherwise the item goes and, by cascade, exactly its ingredient entries |
| FoodItemService.AddIngredientToFoodItem | src/main/java/com/project/sales_and_inventory_with_ai/service/FoodItemServiceImpl.java:104-115 | item missing, then material missing, in that order; otherwise the line is appended under a fresh id, owned by the item, with its material and quantity unchecked, and recorded in the ingredient table; validity is preserved; the request's ids are not consulted |
| FoodItemService.FindLine | src/main/java/com/project/sales_and_inventory_with_ai/entity/FoodItem.java:40 | a line of the list stored under the id, or none exactly when no line carries it |
| FoodItemService.RemoveIngredientFromFoodItem | src/main/java/com/project/sales_and_inventory_with_ai/service/FoodItemServiceImpl.java:118-129 | item missing, then ingredient missing, then "does not belong"; succeeds exactly when the ingredient exists and is owned by the item; validity is preserved |
| FoodItemService.RemoveIngredientEffect | src/main/java/com/project/sales_and_inventory_with_ai/service/FoodItemServiceImpl.java:118-129 | a successful removal takes the id out of the ingredient table and the first line stored under it out of the item's list, the other lines keeping their order; in a valid store the list always holds that line; every other item and every other field stay |
| FoodItemService.AddThenRemove | src/main/java/com/project/sales_and_inventory_with_ai/service/FoodItemServiceImpl.java:104-129 | removing the line that was just added restores the store apart from the spent identity value |
| FoodItemService.CreateThenDelete | src/main/java/com/project/sales_and_inventory_with_ai/service/FoodItemServiceImpl.java:38-95 | deleting a just-created item restores both the item table and the ingredient table, since no sale can point at it |
| FoodItemService.CreateThenGet | src/main/java/com/project/sales_and_inventory_with_ai/service/FoodItemServiceImpl.java:32-63 | getFoodItemById finds the created item under its new id, every line recorded in the ingredient table as its own |
| FoodItemService.DeleteThenGet | src/main/java/com/project/sales_and_inventory_with_ai/service/FoodItemServiceImpl.java:32-95 | after a delete that went through, getFoodItemById reports the id as not found |
| FoodItemService.MaterialsInUse | src/main/java/com/project/sales_and_inventory_with_ai/entity/Ingredient.java:25-27 | exactly the material ids some stored recipe line points at |
| FoodItemService.DeleteUsedMaterialFails | src/main/java/com/project/sales_and_inventory_with_ai/entity/Ingredient.java:25-27 | deleting a stored material that a recipe line uses fails and changes nothing |
| FoodItemService.DeleteMaterialKeepsRecipes | src/main/java/com/project/sales_and_inventory_with_ai/entity/Ingredient.java:25-27 | whatever deleteMaterial is asked to remove, every recipe line still points at a stored material |
| FoodItemService.CreateKeepsRecipes | src/main/java/com/project/sales_and_inventory_with_ai/service/FoodItemServiceImpl.java:48-52 | createFoodItem writes only lines whose material is stored |
| FoodItemService.UpdateKeepsRecipes | src/main/java/com/project/sales_and_inventory_with_ai/service/FoodItemServiceImpl.java:77-83 | updateFoodItem writes only lines whose material is stored |
| FoodItemService.AddKeepsRecipes | src/main/java/com/project/sales_and_inventory_with_ai/service/FoodItemServiceImpl.java:104-112 | addIngredientToFoodItem writes only a line whose material is stored |
| FoodItemService.OnlyCreateChecksPositivity | src/main/java/com/project/sales_and_inventory_with_ai/service/FoodItemServiceImpl.java:39-55 | a zero price and a zero-quantity line are refused on create and accepted on update; a negative line is accepted on add |
| SaleService.Consume | src/main/java/com/project/sales_and_inventory_with_ai/service/SaleServiceImpl.java:57-69 | the loop of guarded deductions in recipe order: on success every material is stored, the key set is kept and non-negative stock is preserved; a failure is a missing material or insufficient stock |
| SaleService.Ids | src/main/java/com/project/sales_and_inventory_with_ai/service/SaleServiceImpl.java:59 | exactly the materials some recipe line names |
| SaleService.DemandOfUnnamed | src/main/java/com/project/sales_and_inventory_with_ai/service/SaleServiceImpl.java:57-69 | a recipe asks nothing of a material it does not name |
| SaleService.DemandNonNegative | src/main/java/com/project/sales_and_inventory_with_ai/service/SaleServiceImpl.java:61 | with non-negative lines and servings, no summed demand is negative |
| SaleService.ConsumeSound | src/main/java/com/project/sales_and_inventory_with_ai/service/SaleServiceImpl.java:57-69 | for any recipe, if the loop succeeds then the recipe was feasible (each material held its summed demand) and the final table is the original minus each material's summed demand |
| SaleService.ConsumeComplete | src/main/java/com/project/sales_and_inventory_with_ai/service/SaleServiceImpl.java:57-69 | for recipes without negative lines and a positive quantity, a feasible recipe makes the loop succeed |
| SaleService.NegativeLineBreaksCompleteness | src/main/java/com/project/sales_and_inventory_with_ai/service/SaleServiceImpl.java:57-69 | without that hypothesis completeness fails: a later negative line makes the total feasible, but the first deduction is refused |
| SaleService.CostAtSamePrices | src/main/java/com/project/sales_and_inventory_with_ai/service/SaleServiceImpl.java:66-68 | the ingredient cost depends only on unit prices, so the deductions do not change it |
| SaleService.GetSaleById | src/main/java/com/project/sales_and_inventory_with_ai/service/SaleServiceImpl.java:32-35 | a stored sale with that id exactly when one exists, otherwise "Sale not found" |
| SaleService.FindSale | src/main/java/com/project/sales_and_inventory_with_ai/service/SaleServiceImpl.java:33 | the same search over the sale table |
| SaleService.StoreSale | src/main/java/com/project/sales_and_inventory_with_ai/service/SaleServiceImpl.java:66-78 | once every deduction went through, the stored sale carries the next id, the item name, the date, the ingredient cost at the stored prices (the deductions do not move prices) and profit = revenue − cost; it is the only row appended, and stock validity and non-negativity carry over |
| SaleService.CreateSale | src/main/java/com/project/sales_and_inventory_with_ai/service/SaleServiceImpl.java:38-79 | checks in order: quantity, price, food item. On success the recipe was feasible; stock drops by each material's summed demand; the food items are untouched; exactly one sale is appended under a fresh id, with the item's name, the date (now when none was given), the ingredient cost at stored prices and profit = revenue − cost. On failure nothing changes; non-negative stock and validity are preserved; the request's ids are not consulted |
| SaleService.CreateThenGet | src/main/java/com/project/sales_and_inventory_with_ai/service/SaleServiceImpl.java:32-79 | getSaleById finds the sale createSale just stored under its new id |
| SaleService.CreateSaleSucceedsIff | src/main/java/com/project/sales_and_inventory_with_ai/service/SaleServiceImpl.java:38-79 | for recipes without negative lines, a sale is recorded exactly when both amounts are positive, the item exists and every material holds the recipe's summed demand |
| SaleService.CreateSaleLeavesOtherMaterials | src/main/java/com/project/sales_and_inventory_with_ai/service/SaleServiceImpl.java:57-69 | materials the recipe does not name are unchanged by a sale |
| SaleService.ItemsSold | src/main/java/com/project/sales_and_inventory_with_ai/entity/Sale.java:22-24 | exactly the food item ids some recorded sale points at |
| SaleService.DeleteMaterial | src/main/java/com/project/sales_and_inventory_with_ai/service/MaterialServiceImpl.java:57-62 | on the whole database: goes through exactly when the material is stored and no recipe line names it; then only that row goes |
| SaleService.DeleteFoodItem | src/main/java/com/project/sales_and_inventory_with_ai/service/FoodItemServiceImpl.java:90-95 | on the whole database: goes through exactly when the item is stored and no sale names it; then only that item goes, and the sales stay |
| SaleService.DeleteSoldItemFails | src/main/java/com/project/sales_and_inventory_with_ai/entity/Sale.java:22-24 | deleting a stored item that a sale names fails and changes nothing |
| SaleService.DeleteFoodItemKeepsSales | src/main/java/com/project/sales_and_inventory_with_ai/entity/Sale.java:22-24 | whatever deleteFoodItem is asked to remove, every sale still names a stored item |
| SaleService.CreateSaleKeepsSales | src/main/java/com/project/sales_and_inventory_with_ai/service/SaleServiceImpl.java:48-49 | createSale records only sales of stored items |
| SaleService.ChocolateCakeSale | src/test/java/com/project/sales_and_inventory_with_ai/service/SaleServiceImplTest.java:47-76 | two cakes at 150 with 0.5 kg flour each at 50/kg cost 50, profit 250, are dated now, and leave 99 kg |
| SaleRepository.Select | src/main/java/com/project/sales_and_inventory_with_ai/repository/SaleRepository.java:17-20 | a derived finder keeps exactly the accepted sales, each as often as stored |
| SaleRepository.FindBySaleDateBetween | src/main/java/com/project/sales_and_inventory_with_ai/repository/SaleRepository.java:17 | exactly the sales dated inside the inclusive window (an undated sale is in none), with multiplicity |
| SaleRepository.FindByFoodItemId | src/main/java/com/project/sales_and_inventory_with_ai/repository/SaleRepository.java:20 | exactly the sales of that food item, with multiplicity |
| SaleRepository.EmptyWindowSum | src/main/java/com/project/sales_and_inventory_with_ai/repository/SaleRepository.java:23 | COALESCE: a window without sales sums to zero |
| SaleRepository.WindowSumAppend | src/main/java/com/project/sales_and_inventory_with_ai/repository/SaleRepository.java:23-39 | window sums over a concatenated table add up |
| SaleRepository.RecordedSaleSum | src/main/java/com/project/sales_and_inventory_with_ai/repository/SaleRepository.java:23-39 | recording one more sale adds its amount to a window sum exactly when the sale is dated inside the window |
| SaleRepository.TotalProfit | src/main/java/com/project/sales_and_inventory_with_ai/repository/SaleRepository.java:23-25 | `calculateTotalProfit`: the sum of the profits of the rows the BETWEEN filter selects, a null profit adding nothing, and 0 when no sale falls in the window |
| SaleRepository.TotalRevenue | src/main/java/com/project/sales_and_inventory_with_ai/repository/SaleRepository.java:36-39 | `calculateTotalRevenue`: the sum of price times quantity over the rows the BETWEEN filter selects, and 0 when no sale falls in the window |
| SaleRepository.FoundSum | src/main/java/com/project/sales_and_inventory_with_ai/repository/SaleRepository.java:23-39 | the window sum equals the plain sum over findBySaleDateBetween's rows, and a window no sale falls in selects none |
| SaleRepository.WindowSumOfFound | src/main/java/com/project/sales_and_inventory_with_ai/repository/SaleRepository.java:17-25 | summing over findBySaleDateBetween's result gives the query's window sum |
| SaleRepository.RevenueLessProfitIsCost | src/main/java/com/project/sales_and_inventory_with_ai/repository/SaleRepository.java:23-39 | when every sale in the window was priced by createSale, revenue minus profit is the summed ingredient cost |
| SaleRepository.UnpricedSaleBreaksCostIdentity | src/main/java/com/project/sales_and_inventory_with_ai/config/DataInitializer.java:127 | the seeded sale (2 × 150, cost 145, profit 5) breaks that identity |
| SaleRepository.SoldItems | src/main/java/com/project/sales_and_inventory_with_ai/repository/SaleRepository.java:28-31 | the groups: exactly the items with a sale in the window whose item still exists, each once |
| SaleRepository.GroupRows | src/main/java/com/project/sales_and_inventory_with_ai/repository/SaleRepository.java:28-31 | one row per group, in group order |
| SaleRepository.SortDesc | src/main/java/com/project/sales_and_inventory_with_ai/repository/SaleRepository.java:31 | the output is sorted by quantity, largest first, and is a permutation of the input |
| SaleRepository.FindTopSellingItems | src/main/java/com/project/sales_and_inventory_with_ai/repository/SaleRepository.java:28-33 | the group rows, reordered (a permutation), largest quantity first |
| SaleRepository.TopRowsCorrect | src/main/java/com/project/sales_and_inventory_with_ai/repository/SaleRepository.java:28-30 | each row carries an existing item, its current name and the summed quantity of that item sold in the window |
| SaleRepository.TopRowsCover | src/main/java/com/project/sales_and_inventory_with_ai/repository/SaleRepository.java:28-30 | an item has a row exactly when it has a sale in the window (and still exists) |
| SaleRepository.TopRowsDistinct | src/main/java/com/project/sales_and_inventory_with_ai/repository/SaleRepository.java:30 | no item has two rows |
| SaleRepository.TopSellingExample | src/test/java/com/project/sales_and_inventory_with_ai/service/ReportServiceImplTest.java:138-158 | three sales built to produce the test's two mocked rows are ranked by the query with the cake (50) above the cupcake (30) |
| ReportService.DateRange | src/main/java/com/project/sales_and_inventory_with_ai/service/ReportServiceImpl.java:80-105 | succeeds exactly for the five keywords, matched after lower-casing; otherwise "Invalid period"; the window ends now and, under a valid clock, starts no later |
| ReportService.WindowLengths | src/main/java/com/project/sales_and_inventory_with_ai/service/ReportServiceImpl.java:84-99 | under a valid clock: today reaches back less than a day, 2days exactly two days, week seven, month 28 to 31 days, year 365 or 366 |
| ReportService.UpperCasePeriods | src/main/java/com/project/sales_and_inventory_with_ai/service/ReportServiceImpl.java:84 | "TODAY", "Week" and "YEAR" name the same windows as their lower-case forms |
| ReportService.PeriodIgnoresCase | src/main/java/com/project/sales_and_inventory_with_ai/service/ReportServiceImpl.java:84 | the window never depends on letter case |
| ReportService.GetTotalProfit | src/main/java/com/project/sales_and_inventory_with_ai/service/ReportServiceImpl.java:23-26 | the error of the window, or the profit sum over it |
| ReportService.GetSalesSummary | src/main/java/com/project/sales_and_inventory_with_ai/service/ReportServiceImpl.java:63-78 | the period as given, the window, profit and revenue over it, and cost = revenue − profit; "Invalid period" exactly for a non-keyword |
| ReportService.SummaryCostIsIngredientCost | src/main/java/com/project/sales_and_inventory_with_ai/service/ReportServiceImpl.java:75 | when every sale of the window was recorded by createSale, the summary's cost is the summed ingredient cost |
| ReportService.EffectiveLimit | src/main/java/com/project/sales_and_inventory_with_ai/service/ReportServiceImpl.java:51 | a positive limit is used as given; any other limit means 10 |
| ReportService.GetTopSellingItems | src/main/java/com/project/sales_and_inventory_with_ai/service/ReportServiceImpl.java:46-60 | a prefix of the window's ranking with min(rows, effective limit) rows; "Invalid period" exactly for a non-keyword |
| ReportService.GetMaterialsStockReport | src/main/java/com/project/sales_and_inventory_with_ai/service/ReportServiceImpl.java:29-43 | the threshold used (10 when none is given) is reported; all materials and their count; exactly the rows strictly below the threshold and their count; the low count never exceeds the total |
| ReportService.StockReportExample | src/test/java/com/project/sales_and_inventory_with_ai/service/ReportServiceImplTest.java:100-118 | flour 100 and sugar 5 at the default threshold give two materials, one of them low, threshold 10 |
| Dto.EmptyFoodItemDTO | src/main/java/com/project/sales_and_inventory_with_ai/dto/FoodItemDTO.java:30 | a new FoodItemDTO has an empty ingredient list, not a null one |
| Dto.NotBlankIsNotNull | src/main/java/com/project/sales_and_inventory_with_ai/dto/MaterialDTO.java:20-21 | @NotBlank holds exactly when the string is non-null and trimming leaves something; in particular @NotBlank already rejects null |
| Dto.NotBlankExamples | src/main/java/com/project/sales_and_inventory_with_ai/dto/MaterialDTO.java:20-21 | @NotBlank accepts "Flour" and refuses blanks with a tab and the empty string |
| Dto.DecimalMinBoundaries | src/main/java/com/project/sales_and_inventory_with_ai/dto/MaterialDTO.java:26-32 | @DecimalMin is inclusive; with @NotNull a null fails, and without it a null passes |
| Dto.SaleRulesExample | src/main/java/com/project/sales_and_inventory_with_ai/dto/SaleDTO.java:17-36 | a sale request without date, profit or cost is valid, and so is one at the 0.01 bounds; one without a price is not |
| Dto.InvalidLineInvalidates | src/main/java/com/project/sales_and_inventory_with_ai/dto/FoodItemDTO.java:29-30 | @Valid cascades: one invalid line makes the food item request invalid |
| DtoMapper.ToMaterialDTO | src/main/java/com/project/sales_and_inventory_with_ai/dto/DTOMapper.java:12-23 | null to null; a material becomes a request with no required field missing |
| DtoMapper.ToMaterialEntity | src/main/java/com/project/sales_and_inventory_with_ai/dto/DTOMapper.java:25-36 | null to null; all six fields copied |
| DtoMapper.MaterialRoundTrips | src/main/java/com/project/sales_and_inventory_with_ai/dto/DTOMapper.java:12-36 | the two material mappers are inverse to each other in both directions |
| DtoMapper.ValidMaterialIsCreatable | src/main/java/com/project/sales_and_inventory_with_ai/dto/MaterialDTO.java:26-32 | a request satisfying the annotations passes both checks of createMaterial |
| DtoMapper.MaterialNameOf | src/main/java/com/project/sales_and_inventory_with_ai/dto/DTOMapper.java:45 | a stub line shows no material name; a resolved line shows its material's current name |
| DtoMapper.ToIngredientDTO | src/main/java/com/project/sales_and_inventory_with_ai/dto/DTOMapper.java:39-48 | null to null; id, material id and quantity copied; the name read through the material reference |
| DtoMapper.ToIngredientEntity | src/main/java/com/project/sales_and_inventory_with_ai/dto/DTOMapper.java:50-62 | null to null; id, material id and quantity copied; no owner and no material name |
| DtoMapper.IngredientRoundTrips | src/main/java/com/project/sales_and_inventory_with_ai/dto/DTOMapper.java:39-62 | a request line loses only its material name in a round trip; an entity line loses only its owner and material name |
| DtoMapper.ValidLineIsAccepted | src/main/java/com/project/sales_and_inventory_with_ai/dto/IngredientDTO.java:18-25 | a valid request line passes createFoodItem's line check exactly when its material exists |
| DtoMapper.LinesToDTO | src/main/java/com/project/sales_and_inventory_with_ai/dto/DTOMapper.java:73-79 | the lines mapped one by one, in order |
| DtoMapper.LinesToEntity | src/main/java/com/project/sales_and_inventory_with_ai/dto/DTOMapper.java:92-98 | the request lines mapped one by one, in order |
| DtoMapper.ToFoodItemDTO | src/main/java/com/project/sales_and_inventory_with_ai/dto/DTOMapper.java:65-82 | null to null; scalars copied; the lines mapped in order |
| DtoMapper.ToFoodItemEntity | src/main/java/com/project/sales_and_inventory_with_ai/dto/DTOMapper.java:84-101 | null to null; scalars copied; the lines mapped in order, or an empty list when the request has none |
| DtoMapper.FoodItemEntityRoundTrip | src/main/java/com/project/sales_and_inventory_with_ai/dto/DTOMapper.java:65-101 | an item sent to a request and back keeps its scalars and its lines in order, each without owner and material name |
| DtoMapper.FoodItemRequestRoundTrip | src/main/java/com/project/sales_and_inventory_with_ai/dto/DTOMapper.java:65-101 | a request sent to an entity and back keeps its scalars; its lines come back in order without material names; a null list comes back empty |
| DtoMapper.ValidFoodItemIsPositive | src/main/java/com/project/sales_and_inventory_with_ai/dto/FoodItemDTO.java:22-30 | a valid food item request passes createFoodItem's price check and every quantity check; only the material lookups can fail |
| DtoMapper.FoodItemNameOf | src/main/java/com/project/sales_and_inventory_with_ai/dto/DTOMapper.java:110 | a stub sale shows no item name; a stored one shows the item's current name |
| DtoMapper.ToSaleDTO | src/main/java/com/project/sales_and_inventory_with_ai/dto/DTOMapper.java:104-117 | null to null; every field copied; the item's name read through the reference |
| DtoMapper.ToSaleEntity | src/main/java/com/project/sales_and_inventory_with_ai/dto/DTOMapper.java:119-135 | null to null; all fields copied, with a food item stub that carries only the id and no name |
| DtoMapper.SaleRoundTrips | src/main/java/com/project/sales_and_inventory_with_ai/dto/DTOMapper.java:104-135 | both round trips lose only the food item's name |
| DtoMapper.ValidSaleIsPositive | src/main/java/com/project/sales_and_inventory_with_ai/dto/SaleDTO.java:24-30 | a valid sale request passes both positivity checks of createSale |
| JavaText.Trim | src/main/java/com/project/sales_and_inventory_with_ai/ai/service/AIServiceImpl.java:88 | `String.trim`: the result is the run of the input from its first to its last character above U+0020, character for character, so blanks between kept characters stay; no character ≤ U+0020 at either end |
| JavaText.TrimKeepsInnerBlank | src/main/java/com/project/sales_and_inventory_with_ai/ai/service/AIServiceImpl.java:88 | trimming " a b " gives "a b": the inner blank stays |
| JavaText.TrimEmptyIffBlank | src/main/java/com/project/sales_and_inventory_with_ai/dto/MaterialDTO.java:20 | the trimmed text is empty exactly when the input has no character above U+0020 |
| JavaText.TrimIdempotent | src/main/java/com/project/sales_and_inventory_with_ai/ai/service/AIServiceImpl.java:88 | trimming twice is trimming once |
| JavaText.SkipRegexSpace | src/main/java/com/project/sales_and_inventory_with_ai/ai/service/AIServiceImpl.java:86-87 | the regex `\s*`: drops exactly the leading run of whitespace and returns the rest |
| JavaText.Lower | src/main/java/com/project/sales_and_inventory_with_ai/service/ReportServiceImpl.java:84 | `toLowerCase`, character by character, with the same length |
| JavaText.LowerIdempotent | src/main/java/com/project/sales_and_inventory_with_ai/service/ReportServiceImpl.java:84 | lower-casing twice is lower-casing once |
| JavaText.NatToStringValue | src/main/java/com/project/sales_and_inventory_with_ai/service/MaterialServiceImpl.java:59 | the decimal rendering of a number reads back as that number |
| JavaText.ParseInt | src/main/java/com/project/sales_and_inventory_with_ai/ai/service/AIServiceImpl.java:139 | `Integer.parseInt`: a result lies in the 32-bit range, and an empty text has none |
| JavaText.ParseIntOfToString | src/main/java/com/project/sales_and_inventory_with_ai/ai/service/AIServiceImpl.java:139 | parsing a rendered int gives it back exactly when it fits in 32 bits |
| JavaText.ParseDecimal | src/main/java/com/project/sales_and_inventory_with_ai/ai/service/AIServiceImpl.java:132-134 | `new BigDecimal(String)`: an empty text has no value; an exponent outside the int range, or one that puts the scale outside it, is refused (see `JavaText.ExponentLiteral`) |
| JavaText.ExponentLiteral | src/main/java/com/project/sales_and_inventory_with_ai/ai/service/AIServiceImpl.java:132-134 | digits with an exponent parse exactly when the exponent and the scale, its negation, both fit in an int ("1e2147483648" and "1e-2147483648" are refused), and then denote the digits times ten to the exponent |
| JavaText.ParseDecimalOfToString | src/main/java/com/project/sales_and_inventory_with_ai/ai/service/AIServiceImpl.java:132-134 | a rendered integer parses back as that value |
| ChatDispatcher.RemoveFenceKeepsPlainText | src/main/java/com/project/sales_and_inventory_with_ai/ai/service/AIServiceImpl.java:85-87 | a reply without backticks passes the fence removal unchanged |
| ChatDispatcher.PlainReplyIsTrimmed | src/main/java/com/project/sales_and_inventory_with_ai/ai/service/AIServiceImpl.java:85-88 | such a reply is only trimmed |
| ChatDispatcher.RemoveFenceLeavesNoFence | src/main/java/com/project/sales_and_inventory_with_ai/ai/service/AIServiceImpl.java:87 | after the "```" pass no three backticks in a row remain |
| ChatDispatcher.CleanReplyHasNoFence | src/main/java/com/project/sales_and_inventory_with_ai/ai/service/AIServiceImpl.java:85-88 | whatever the model wrote, the cleaned reply holds no code fence |
| ChatDispatcher.RemoveFence | src/main/java/com/project/sales_and_inventory_with_ai/ai/service/AIServiceImpl.java:86-87 | `replaceAll(fence + "\\s*", "")`: the result is never longer than the reply, and a first character that opens no fence is kept in front |
| ChatDispatcher.CleanReply | src/main/java/com/project/sales_and_inventory_with_ai/ai/service/AIServiceImpl.java:85-88 | the cleaned reply is never longer than the model's reply and neither starts nor ends with a character `trim()` strips |
| ChatDispatcher.FencedReplyExample | src/main/java/com/project/sales_and_inventory_with_ai/ai/service/AIServiceImpl.java:85-88 | "```json\n{}\n```" is cleaned to "{}" |
| ChatDispatcher.ApologyResponse | src/main/java/com/project/sales_and_inventory_with_ai/ai/service/AIServiceImpl.java:110-117 | the apology text, action "ERROR", no data, no confirmation |
| ChatDispatcher.StringField | src/main/java/com/project/sales_and_inventory_with_ai/ai/service/AIServiceImpl.java:94-95 | a `(String)` cast of a map entry: absent or null gives null, a string gives its text, and any other value a ClassCastException |
| ChatDispatcher.StringParameter | src/main/java/com/project/sales_and_inventory_with_ai/ai/service/AIServiceImpl.java:128 | `getOrDefault`: the default only when the key is absent; a present key is cast as above |
| ChatDispatcher.TextParameter | src/main/java/com/project/sales_and_inventory_with_ai/ai/service/AIServiceImpl.java:133 | `getOrDefault(...).toString()`: the default when absent; a NullPointerException exactly for a null value; a string as is, a number as its decimal rendering |
| ChatDispatcher.ViewProfit | src/main/java/com/project/sales_and_inventory_with_ai/ai/service/AIServiceImpl.java:127-129 | the sales summary for the given period text, or for "today" when absent; a null period throws NullPointerException and a non-string one ClassCastException |
| ChatDispatcher.Lift | src/main/java/com/project/sales_and_inventory_with_ai/ai/service/AIServiceImpl.java:129 | the summary or its error, unchanged |
| ChatDispatcher.ViewStock | src/main/java/com/project/sales_and_inventory_with_ai/ai/service/AIServiceImpl.java:131-135 | a null threshold throws; a text that does not parse as a decimal fails with the number-format error; otherwise the stock report at the parsed threshold, listing every material |
| ChatDispatcher.ViewTopItems | src/main/java/com/project/sales_and_inventory_with_ai/ai/service/AIServiceImpl.java:137-140 | failures in source order: a non-string period (ClassCast), a null limit (NullPointer), an unparsable limit (NumberFormat), a null period (NullPointer); otherwise the report's ranking for that period and limit, or its error |
| ChatDispatcher.Route | src/main/java/com/project/sales_and_inventory_with_ai/ai/service/AIServiceImpl.java:122-148 | a null action throws; VIEW_MATERIALS gives all materials; ADD_MATERIAL gives the parameters back; an unknown action gives "Action not yet implemented: " and the action; the three reading actions throw on null parameters and otherwise run their case |
| ChatDispatcher.ExecuteAction | src/main/java/com/project/sales_and_inventory_with_ai/ai/service/AIServiceImpl.java:121-153 | the action's data, or "Error: " and the exception message; nothing escapes |
| ChatDispatcher.ParametersField | src/main/java/com/project/sales_and_inventory_with_ai/ai/service/AIServiceImpl.java:97 | absent gives an empty map; the read fails exactly for a value that is neither null nor an object |
| ChatDispatcher.NeedsMoreInfoField | src/main/java/com/project/sales_and_inventory_with_ai/ai/service/AIServiceImpl.java:98 | absent gives false; succeeds exactly for a missing key or a boolean; null fails on unboxing |
| ChatDispatcher.ReadReply | src/main/java/com/project/sales_and_inventory_with_ai/ai/service/AIServiceImpl.java:94-98 | succeeds exactly when all four field reads do, and then holds their values |
| ChatDispatcher.ParseAndExecute | src/main/java/com/project/sales_and_inventory_with_ai/ai/service/AIServiceImpl.java:82-119 | an undecodable reply, or a scalar, gets the apology; a null document throws; a field error propagates; needsMoreInfo returns the message and action with no data and confirmation set; otherwise the action's result with no confirmation |
| ChatDispatcher.NeedsMoreInfoShortCircuits | src/main/java/com/project/sales_and_inventory_with_ai/ai/service/AIServiceImpl.java:100-103 | a reply asking for more information runs no action |
| ChatDispatcher.MissingFieldsDefault | src/main/java/com/project/sales_and_inventory_with_ai/ai/service/AIServiceImpl.java:94-108 | a reply with only an action has no message and runs the action with an empty parameter map |
| ChatDispatcher.ProfitDefaultsToToday | src/main/java/com/project/sales_and_inventory_with_ai/ai/service/AIServiceImpl.java:127-129 | VIEW_PROFIT without parameters gives today's summary |
| ChatDispatcher.StockDefaultsToTen | src/main/java/com/project/sales_and_inventory_with_ai/ai/service/AIServiceImpl.java:131-135 | VIEW_STOCK without parameters reports at threshold 10 |
| ChatDispatcher.TopItemsDefaults | src/main/java/com/project/sales_and_inventory_with_ai/ai/service/AIServiceImpl.java:137-140 | VIEW_TOP_ITEMS without parameters gives at most five of today's ranked rows |
| ChatDispatcher.BadPeriodIsReported | src/main/java/com/project/sales_and_inventory_with_ai/ai/service/AIServiceImpl.java:149-152 | an unknown period inside VIEW_PROFIT comes back as "Error: " and the invalid-period message |
| ChatDispatcher.RecordSaleNotImplemented | src/main/java/com/project/sales_and_inventory_with_ai/ai/service/AIServiceImpl.java:146-147 | RECORD_SALE, which the prompt advertises, has no case and is answered as not implemented |

## Left out

- The controllers, the HTTP layer, `OllamaService` and the prompt text (`generatePrompt`). The model begins at the model's reply string. `processMessage` is the network call followed by `parseAndExecute`.
- Jackson's JSON decoding is a parameter (`decode`) of `ChatDispatcher.ParseAndExecute`.
  - A JSON number is modelled as an integer. Floating-point numbers and arrays are not modelled.
  - A nested object's `toString()` is the placeholder `ObjectRendering`.
- JVM-generated exception messages are placeholders: `NullPointerException`, `ClassCastException`, `NumberFormatException`, the `BigDecimal` parse failure, and `DataIntegrityViolationException` for a delete the schema refuses. The insufficient-stock message leaves its amounts unrendered. The service messages are the source's own.
- `LocalDateTime.now()` and the calendar arithmetic are the `ReportService.Clock` parameter. Its `Valid` predicate states the day, month and year bounds.
- `BigDecimal` scale, precision and rounding are not modelled. Amounts are exact reals.
- The derived queries `getAll*` (except where a report or an action reads a whole table) and `searchMaterialsByName` / `searchFoodItemsByName` are left out. The latter depend on the database's collation for `ContainingIgnoreCase`. `getSalesByDateRange` and `getSalesByFoodItem` are the two finders in `SaleRepository`.
- The mappers copy a request's id into the entity, and `save()` of an entity with a non-null id runs JPA `merge`. The model always inserts under the next identity value, so the five operations below are modelled for requests without ids (and for ids naming no stored row, where older Hibernate releases insert under a fresh identity value and newer ones refuse the merge). Update keeps the stored id.
- MaterialService.CreateMaterial: a request id naming a stored material makes `save()` merge into it, so the call overwrites that row instead of adding one. Not modelled.
- FoodItemService.CreateFoodItem: a request id naming a stored item makes `save()` merge into it, overwriting it, line list included. Request line ids likewise merge into stored lines. Not modelled.
- FoodItemService.UpdateFoodItem: request line ids naming stored lines make the final `save()` merge into those lines instead of inserting new ones. Not modelled: every new line gets a fresh id.
- FoodItemService.AddIngredientToFoodItem: a request line id naming a stored line makes `ingredientRepository.save` merge into that line, possibly one of another item. Not modelled: the line always gets a fresh id.
- SaleService.CreateSale: a request id naming a recorded sale makes the final `save()` overwrite that sale after the stock deductions, which changes the report sums. Not modelled: the sale is always appended.
- FoodItemService.CreateFoodItem: the save of the item cascades to its lines before the loop sets each line's owner and replaces its material stub by the stored material. Whether Hibernate accepts that first insert depends on its nullability checks and flush order. The model performs the whole create as one step with the lines already resolved.
- Concurrency, isolation and JPA's persistence context are left out. Each call sees and writes the whole tables. A `RuntimeException` rolls back everything the call wrote.
- The bean-validation engine itself is not modelled. `Dto` states what each annotation accepts, and the `DtoMapper` lemmas state what a valid request guarantees downstream.
- Java `null` elements inside lists, and a null `ingredients` list on an entity, are not represented.
- `entity/Material.java` is not part of this model. Its fields are taken from its constructor calls in the tests and the seed data.
- The `findTopSellingItems` query orders ties arbitrarily. The model fixes one order and states only sortedness, the permutation and the row contents.
- The foreign keys `ingredients.material_id` and `sales.food_item_id` are modelled as a failure of the delete (`MaterialService.DeleteMaterial`, `FoodItemService.DeleteFoodItem`). The rows that still refer to the id are a parameter of each delete, and `SaleService.DeleteMaterial` / `SaleService.DeleteFoodItem` compute them from the whole database. So every sale names a stored item (`SaleService.DeleteFoodItemKeepsSales`), and the inner join of `findTopSellingItems` on `s.foodItem` drops no sale.
- Validation differs from one operation to the next, and the model follows the code.
  - `updateMaterial`, `updateFoodItem` and `addIngredientToFoodItem` check no amount, so negative stock can enter through `updateMaterial` (`MaterialService.UpdateAcceptsNegativeStock`).
  - The seed data writes sales whose profit is not revenue − cost (`SaleRepository.UnpricedSaleBreaksCostIdentity`), so the summary's cost equals the ingredient cost only for sales recorded by `createSale`.
- SaleService.CreateSale: the loop's running cost is computed at the unit prices the deductions leave. The deductions change only quantities, so `SaleService.CostAtSamePrices` identifies it with the cost at the stored prices.
- SaleService.CreateSaleSucceedsIff: the if-and-only-if holds only for recipes without negative lines. `SaleService.NegativeLineBreaksCompleteness` shows the reverse direction failing otherwise. Only `createFoodItem` rules such lines out.
- DtoMapper.ToMaterialEntity, DtoMapper.ToIngredientEntity, DtoMapper.ToFoodItemEntity and DtoMapper.ToSaleEntity require the fields the entity cannot leave null (the `*Complete` predicates). The source would store nulls there. The controllers validate first, and every `*Valid` request is complete.
- JavaText.ParseInt and JavaText.ParseDecimal accept only the ASCII digits 0-9. `Integer.parseInt` and `new BigDecimal(String)` accept every Unicode decimal digit through `Character.digit`, so a limit of "٥" is 5 in the source and a format error in the model. The set of such digits depends on the JDK's Unicode tables, which are not modelled.
- ChatDispatcher.RemoveFence and ChatDispatcher.CleanReply: their own contracts bound the length and the ends only. What the fence passes remove is stated by `RemoveFenceLeavesNoFence`, `CleanReplyHasNoFence`, `PlainReplyIsTrimmed` and `FencedReplyExample`, not as one exact contract of the regular-expression replacement.
- JavaText.ParseInt and JavaText.ParseDecimal state the round trip with the rendering, the empty-input case and, for `ParseDecimal`, digits with an exponent (`JavaText.ExponentLiteral`, including the int range of the exponent and of the scale). Other accepted spellings (`+7`, `.5`) follow the parser's body, not a separate contract.
