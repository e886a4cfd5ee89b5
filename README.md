# Inventory service and frontend rules, in Dafny

This project models the core of a small inventory application.

The **Spring backend** keeps products in an in-memory hash map with a `long` id generator. Its product service does four things:
- It creates products. A name already stored, ignoring case, is rejected. A new product takes a sequential `int` id and today's creation and update dates.
- It filters products by name substring, category substring and stock.
- It updates or deletes a product by id. A missing id is an error.
- It serves pages of the product list and per-category inventory metrics, closed by an "Overall" row.

The **React frontend** has four parts:
- A product table. It colours stock levels and expiry dates, marks the active sort columns, and reports row and header events.
- A filter panel. It turns an availability choice into a tri-state stock flag and resets on clear.
- A create/edit dialog. It has a save-disabled rule and resolves the "custom" category sentinel.
- A service layer. It builds the query parameters sent to the backend.

Modules follow the source files:
- `ProductModel` is a datatype with validity predicates.
- `Repository` is a class over a `map<int, Product>` and a counter.
- `ProductService` holds the pure stream logic as functions and the stateful service as a class. The class's methods are specified by those functions.
- `ProductTable` is made of pure functions.
- `ProductFilters` and `ProductForm` are classes for the component state, with pure functions for what the handlers compute.
- `ProductClient` builds the query parameters with methods that use appends and a loop. Their specification functions come with read-back lemmas.

Helper modules:
- `Wrappers` holds `Option` and `Result`.
- `JavaInt` holds Java `int` wrap-around.
- `Text` holds ASCII lower-casing, `equalsIgnoreCase`, `trim`, `contains` and the UTF-16 length that `String.length()` reports.
- `Sets` holds the sizes of set enumerations.
- `Js` holds JavaScript `Number(...)` on numbers and decimal strings, `<` with NaN, and integer and boolean `toString`.
- `UiTypes` holds the frontend product record.

Clock readings are parameters:
- `today` is a day number on the backend.
- `diffDays` is the days until expiry in the table.

Hash-map iteration order is left unspecified:
- `FindAll` returns some enumeration of the stored values.
- The metrics loop visits the groups in some order.
- Every property is proved for every such order.

Where the code departs from what its documentation describes, the model follows the code:
- `updateProduct` performs no duplicate-name check, so an update may give a product a name another product already has.
- Java `int` arithmetic wraps. This matters in `page * size`, in `fromIndex + size`, and in the metrics sums. The model writes the wrap out, so the Overall quantity equals the in-stock total only modulo 2^32, and exactly when that total fits in an `int`.
- `onToggleStock` receives the checkbox's new state, that is "now out of stock", although the page names that argument `inStock`.

## Model

| member | source | states |
|---|---|---|
| ProductModel.IsOutOfStock | inventory-service/src/main/java/com/example/inventory_service/model/Product.java:97-100 | definition: the derived flag is `stockQuantity == 0`, so a negative stock is not out of stock |
| ProductModel.NotBlank | inventory-service/src/main/java/com/example/inventory_service/model/Product.java:10 | definition: `@NotBlank` holds when something is left after `trim()` |
| ProductModel.NameValid | inventory-service/src/main/java/com/example/inventory_service/model/Product.java:10-12 | definition: not blank and at most 120 UTF-16 code units (`Text.Utf16Length`), as `@Size` counts `String.length()` |
| ProductModel.CategoryValid | inventory-service/src/main/java/com/example/inventory_service/model/Product.java:14-15 | definition: the category is not blank |
| ProductModel.PriceValid | inventory-service/src/main/java/com/example/inventory_service/model/Product.java:17-19 | definition: `@PositiveOrZero`, the price is at least 0 |
| ProductModel.ExpirationValid | inventory-service/src/main/java/com/example/inventory_service/model/Product.java:21-22 | definition: `@FutureOrPresent`, an absent date passes and a present one is today or later |
| ProductModel.StockValid | inventory-service/src/main/java/com/example/inventory_service/model/Product.java:24-26 | definition: `@Min(0)`, the stock is at least 0 |
| ProductModel.IsValid | inventory-service/src/main/java/com/example/inventory_service/model/Product.java:10-26 | definition: the conjunction of the five field constraints, checked on `today` |
| ProductModel.ValidOutOfStockIffNoStock | inventory-service/src/main/java/com/example/inventory_service/model/Product.java:97-100 | for a valid product, the derived out-of-stock flag (stock == 0) holds iff stock <= 0 |
| ProductModel.ValidNameShape | inventory-service/src/main/java/com/example/inventory_service/model/Product.java:10-12 | a valid name has between 1 and 120 UTF-16 code units, hence at most 120 characters and at most 60 when every one lies above U+FFFF, and at least one character that is not trimmable |
| ProductModel.EmojiNameTooLong | inventory-service/src/main/java/com/example/inventory_service/model/Product.java:11 | a name of 61 copies of U+1F600 (61 characters, 122 code units) is not a valid name |
| ProductModel.NotBlankIffVisibleChar | inventory-service/src/main/java/com/example/inventory_service/model/Product.java:10-14 | `@NotBlank` holds iff the string has a character above U+0020 |
| ProductModel.ExpirationValidEarlier | inventory-service/src/main/java/com/example/inventory_service/model/Product.java:21-22 | a date that is today-or-later stays valid when checked on an earlier day |
| Text.Utf16Length | inventory-service/src/main/java/com/example/inventory_service/model/Product.java:11 | `String.length()`: the number of UTF-16 code units lies between the character count and twice it |
| Text.Utf16LengthBounds | inventory-service/src/main/java/com/example/inventory_service/model/Product.java:11 | the code-unit length equals the character count iff no character is above U+FFFF, and doubles it iff every character is |
| Text.EqualsIgnoreCase | inventory-service/src/main/java/com/example/inventory_service/service/ProductService.java:35 | definition: the two strings are equal once lower-cased, hence of equal length |
| Text.Contains | inventory-service/src/main/java/com/example/inventory_service/service/ProductService.java:65-67 | `contains` holds iff some window of the string equals the pattern |
| Text.Trim | inventory-service/src/main/java/com/example/inventory_service/service/ProductService.java:67 | `trim` leaves the window of the string that has only trimmable characters before and after it and no trimmable character at either end; it is empty iff every character is trimmable |
| Text.TrimUnique | inventory-service/src/main/java/com/example/inventory_service/service/ProductService.java:67 | any window with only trimmable characters around it and none at its ends is the result of `trim`, so the contract of `Text.Trim` determines it |
| Text.ToLower | inventory-service/src/main/java/com/example/inventory_service/service/ProductService.java:65-67 | lower-casing keeps the length and maps each ASCII capital to its small letter, leaving other characters alone |
| Text.ToLowerIdempotent | inventory-service/src/main/java/com/example/inventory_service/service/ProductService.java:65 | lower-casing twice equals lower-casing once |
| JavaInt.Wrap32 | inventory-service/src/main/java/com/example/inventory_service/service/ProductService.java:143-150 | the `int` result of an exact value: in range, congruent modulo 2^32, the value itself when it fits |
| JavaInt.WrapAddLeft | inventory-service/src/main/java/com/example/inventory_service/service/ProductService.java:150 | wrapping a running `int` sum before the next addition does not change the wrapped total |
| Repository.ListingSize | inventory-service/src/main/java/com/example/inventory_service/repository/InMemoryProductRepository.java:27-29 | a listing of the store has exactly one element per key |
| Repository.ListingMembers | inventory-service/src/main/java/com/example/inventory_service/repository/InMemoryProductRepository.java:27-29 | every listed product is stored, and every stored product is listed |
| Repository.EmptyListing | inventory-service/src/main/java/com/example/inventory_service/repository/InMemoryProductRepository.java:27-37 | the only listing of an empty store is empty |
| Repository.InMemoryProductRepository.constructor | inventory-service/src/main/java/com/example/inventory_service/repository/InMemoryProductRepository.java:12-13 | the store starts empty with the generator at 1 |
| Repository.InMemoryProductRepository.Save | inventory-service/src/main/java/com/example/inventory_service/repository/InMemoryProductRepository.java:15-21 | without an id the product takes the generator's value and the generator advances by one; with an id it keeps it and the generator is untouched; the product is stored under its id and every other key is unchanged |
| Repository.InMemoryProductRepository.FindById | inventory-service/src/main/java/com/example/inventory_service/repository/InMemoryProductRepository.java:23-25 | the stored product iff the id is a key, otherwise null |
| Repository.InMemoryProductRepository.FindAll | inventory-service/src/main/java/com/example/inventory_service/repository/InMemoryProductRepository.java:27-29 | the result lists the stored values once per key, in some order |
| Repository.InMemoryProductRepository.DeleteById | inventory-service/src/main/java/com/example/inventory_service/repository/InMemoryProductRepository.java:31-33 | the store loses exactly that key; the generator is untouched |
| Repository.InMemoryProductRepository.Clear | inventory-service/src/main/java/com/example/inventory_service/repository/InMemoryProductRepository.java:35-37 | the store becomes empty; the generator keeps its value |
| Repository.InMemoryProductRepository.ExistsById | inventory-service/src/main/java/com/example/inventory_service/repository/InMemoryProductRepository.java:39-41 | true iff the id is a key |
| ProductService.AnyNameMatches | inventory-service/src/main/java/com/example/inventory_service/service/ProductService.java:34-35 | true iff some listed product's name equals the name ignoring case |
| ProductService.ListingNameTaken | inventory-service/src/main/java/com/example/inventory_service/service/ProductService.java:34-35 | scanning any listing of the store decides whether some stored product has the name, ignoring case |
| ProductService.SingleStoreNameTaken | inventory-service/src/main/java/com/example/inventory_service/service/ProductService.java:34-35 | with one product stored, a name is taken iff it equals that product's ignoring case |
| ProductService.Matches | inventory-service/src/main/java/com/example/inventory_service/service/ProductService.java:65-68 | definition: the conjunction of the three stream predicates for the name, category and stock criteria, each passing when its criterion is absent |
| ProductService.Filter | inventory-service/src/main/java/com/example/inventory_service/service/ProductService.java:63-69 | the result is a subsequence of the listing, and a product is in it iff it is listed and meets the name, category and stock criteria |
| ProductService.FilterNoCriteria | inventory-service/src/main/java/com/example/inventory_service/service/ProductService.java:65-68 | with no name, no or empty categories and no stock flag, the filter returns the whole listing |
| ProductService.FilterEmptyName | inventory-service/src/main/java/com/example/inventory_service/service/ProductService.java:65 | an empty name filter keeps every product |
| ProductService.StockFiltersPartition | inventory-service/src/main/java/com/example/inventory_service/service/ProductService.java:68 | the in-stock and out-of-stock filters split every listing between them |
| ProductService.OutOfStockFilterMatchesFlag | inventory-service/src/main/java/com/example/inventory_service/service/ProductService.java:68 | for valid products, the out-of-stock filter keeps exactly the products flagged out of stock |
| ProductService.Paginate | inventory-service/src/main/java/com/example/inventory_service/service/ProductService.java:111-123 | a successful page reports the store size, the page and the size, holds at most `size` products (or none), and is a subsequence of the listing |
| ProductService.SliceIsSubsequence | inventory-service/src/main/java/com/example/inventory_service/service/ProductService.java:120 | a `subList` window is a subsequence of the list |
| ProductService.PaginateInRange | inventory-service/src/main/java/com/example/inventory_service/service/ProductService.java:113-122 | without overflow: empty when `page*size` exceeds the total, otherwise exactly the window `[page*size, min(page*size+size, total))` |
| ProductService.PaginateErrors | inventory-service/src/main/java/com/example/inventory_service/service/ProductService.java:116-120 | without overflow: `subList` fails with an index error iff the start is negative, and with an illegal argument iff the start is inside the list and the size is negative |
| ProductService.PageOfIndex | inventory-service/src/main/java/com/example/inventory_service/service/ProductService.java:113-120 | with a positive size, product `i` is at position `i % size` of page `i / size` |
| ProductService.InStockOnly | inventory-service/src/main/java/com/example/inventory_service/service/ProductService.java:130-131 | a subsequence that keeps exactly the listed products that are not out of stock |
| ProductService.OfCategoryMembers | inventory-service/src/main/java/com/example/inventory_service/service/ProductService.java:132 | a category's bucket holds exactly that category's products, and is non-empty iff the category occurs |
| ProductService.GroupByCategory | inventory-service/src/main/java/com/example/inventory_service/service/ProductService.java:132 | definition: `groupingBy(getCategory)`, the map from each category that occurs to its products in encounter order |
| ProductService.GroupByCategoryBuckets | inventory-service/src/main/java/com/example/inventory_service/service/ProductService.java:130-132 | the grouping has one key per occurring category, and each bucket is non-empty and holds exactly its category's products |
| ProductService.Average | inventory-service/src/main/java/com/example/inventory_service/service/ProductService.java:146 | definition: `totalQty == 0 ? 0 : totalValue / totalQty` |
| ProductService.CategoryMetric | inventory-service/src/main/java/com/example/inventory_service/service/ProductService.java:140-148 | definition: one category row, the `int` quantity sum wrapped, the value sum, and their average |
| ProductService.OverallMetric | inventory-service/src/main/java/com/example/inventory_service/service/ProductService.java:154-156 | definition: the "Overall" row, the rows' quantities summed in a wrapping `int`, their values summed, and the average |
| ProductService.AverageTimesQuantity | inventory-service/src/main/java/com/example/inventory_service/service/ProductService.java:146-155 | the average is 0 when the quantity is 0; otherwise average times quantity is the total value |
| ProductService.Rows | inventory-service/src/main/java/com/example/inventory_service/service/ProductService.java:139-148 | one row per category in the iteration order, each with that category's metric |
| ProductService.PartitionStock | inventory-service/src/main/java/com/example/inventory_service/service/ProductService.java:130-143 | summing the category buckets' stock over an enumeration of the categories gives the total stock |
| ProductService.WrappedRowsSum | inventory-service/src/main/java/com/example/inventory_service/service/ProductService.java:143-150 | adding up each row's wrapped `int` sum gives, once wrapped, the wrapped sum of the bucket stocks |
| ProductService.OverallIsTotalStock | inventory-service/src/main/java/com/example/inventory_service/service/ProductService.java:130-156 | whatever the category order, the Overall quantity is the total stock of the in-stock products, modulo 2^32 |
| ProductService.OverallExact | inventory-service/src/main/java/com/example/inventory_service/service/ProductService.java:150-156 | when that total fits in an `int`, the Overall quantity equals it exactly |
| ProductService.RowsCountOnlyInStock | inventory-service/src/main/java/com/example/inventory_service/service/ProductService.java:130-132 | every product counted in a row is listed, in stock, and of that row's category |
| ProductService.ApplyUpdate | inventory-service/src/main/java/com/example/inventory_service/service/ProductService.java:84-89 | copies name, category, price, stock and expiration; the id and creation date stay; the update date becomes today |
| ProductService.ApplyUpdateIdempotent | inventory-service/src/main/java/com/example/inventory_service/service/ProductService.java:84-89 | the same update applied twice on a day is the update applied once |
| ProductService.SummarizeGroups | inventory-service/src/main/java/com/example/inventory_service/service/ProductService.java:134-156 | the loop visits every group once, emits one row per group in that order, and ends with the Overall row over those rows |
| ProductService.SummarizedStep | inventory-service/src/main/java/com/example/inventory_service/service/ProductService.java:139-152 | one iteration keeps the rows, the `int` total and the value total equal to the sums over the groups visited so far |
| ProductService.ProductService.StoreSize | inventory-service/src/main/java/com/example/inventory_service/service/ProductService.java:23-41 | the store holds fewer products than `nextId`, since every stored id lies in `[1, nextId)` |
| ProductService.ProductService.constructor | inventory-service/src/main/java/com/example/inventory_service/service/ProductService.java:23-27 | the service starts with `nextId` 1 over an empty store |
| ProductService.ProductService.CreateProduct | inventory-service/src/main/java/com/example/inventory_service/service/ProductService.java:33-46 | an invalid product or a name already stored (ignoring case) fails with nothing changed; otherwise the product gets id `nextId`, which is fresh, and today's dates; the store gains exactly that entry and `nextId` grows by one |
| ProductService.ProductService.StoreNew | inventory-service/src/main/java/com/example/inventory_service/service/ProductService.java:41-45 | the product is stored under the current `nextId`, which no stored product holds, with both dates set to today; the repository's own counter is untouched and `nextId` grows by one, keeping every stored id below it |
| ProductService.ProductService.GetAllProducts | inventory-service/src/main/java/com/example/inventory_service/service/ProductService.java:52-54 | a listing of the store |
| ProductService.ProductService.GetFilteredProducts | inventory-service/src/main/java/com/example/inventory_service/service/ProductService.java:63-70 | the filter applied to a listing of the store |
| ProductService.ProductService.UpdateProduct | inventory-service/src/main/java/com/example/inventory_service/service/ProductService.java:78-93 | a missing id fails with the store unchanged; otherwise only that entry changes, to the updated copy, with no name check |
| ProductService.ProductService.DeleteById | inventory-service/src/main/java/com/example/inventory_service/service/ProductService.java:99-104 | a missing id fails with the store unchanged; otherwise exactly that entry is removed |
| ProductService.ProductService.GetPaginatedProducts | inventory-service/src/main/java/com/example/inventory_service/service/ProductService.java:111-123 | pagination of a listing of the store, whose size fits in an `int` |
| ProductService.ProductService.GetInventoryMetrics | inventory-service/src/main/java/com/example/inventory_service/service/ProductService.java:129-159 | one row per category of the in-stock products, in some enumeration of the categories, then the Overall row over those rows |
| Js.ToNumber | frontend/inventory-frontend/src/components/ProductForm/ProductForm.tsx:150 | `Number(v)` keeps a number and reads the empty string as 0 |
| Js.NatToString | frontend/inventory-frontend/src/services/productService.ts:16-17 | the decimal digits of a natural number, reading back to that number and holding no dot |
| Js.IntToStringRoundTrip | frontend/inventory-frontend/src/components/ProductTable/ProductTable.tsx:115 | `Number(String(n))` is `n` for every integer |
| Js.BoolToString | frontend/inventory-frontend/src/services/productService.ts:99 | "true" iff true, "false" iff false |
| UiTypes.DirectionName | frontend/inventory-frontend/src/services/productService.ts:11-13 | "asc" iff ascending, "desc" iff descending |
| ProductTable.StockStyle | frontend/inventory-frontend/src/components/ProductTable/ProductTable.tsx:47-51 | red iff the stock is below 5, orange iff it is from 5 to below 10, no colour otherwise (also for NaN) |
| ProductTable.StockStyleMonotone | frontend/inventory-frontend/src/components/ProductTable/ProductTable.tsx:47-51 | less stock never gets a less urgent colour |
| ProductTable.StockStyleNaN | frontend/inventory-frontend/src/components/ProductTable/ProductTable.tsx:48-50 | stock that is not a number gets no colour |
| ProductTable.ExpirationColor | frontend/inventory-frontend/src/components/ProductTable/ProductTable.tsx:53-62 | no colour without a date; otherwise red iff under 7 days, yellow iff 7 to under 14, green iff 14 or more; the three cases are exclusive and cover everything |
| ProductTable.ExpirationColorMonotone | frontend/inventory-frontend/src/components/ProductTable/ProductTable.tsx:59-61 | a nearer date never gets a less urgent colour |
| ProductTable.ExpirationUnparsedIsGreen | frontend/inventory-frontend/src/components/ProductTable/ProductTable.tsx:56-61 | a date that does not parse (NaN days) is shown green |
| ProductTable.ColumnLabel | frontend/inventory-frontend/src/components/ProductTable/ProductTable.tsx:81 | an unknown column shows its own key; a known one shows a non-empty caption other than its key |
| ProductTable.ColumnLabelsDistinct | frontend/inventory-frontend/src/components/ProductTable/ProductTable.tsx:40-46 | the five captions are pairwise different |
| ProductTable.RenderSortLabel | frontend/inventory-frontend/src/components/ProductTable/ProductTable.tsx:64-84 | active iff the column is either sort key; the first sort key wins with its direction, then the second; inactive means ascending; the caption is the column's label |
| ProductTable.Headers | frontend/inventory-frontend/src/components/ProductTable/ProductTable.tsx:92-96 | five headers, one per sortable column, in order |
| ProductTable.AtMostTwoActive | frontend/inventory-frontend/src/components/ProductTable/ProductTable.tsx:64-74 | at most two headers are active, and the first sort key's column shows its direction |
| ProductTable.RowOutOfStock | frontend/inventory-frontend/src/components/ProductTable/ProductTable.tsx:102 | definition: strict `stockQuantity === 0`, so the text "0" does not count |
| ProductTable.RenderRow | frontend/inventory-frontend/src/components/ProductTable/ProductTable.tsx:101-139 | a row is checked, struck through and grey iff its stock is exactly the number 0; its background is the expiry colour and its stock colour the stock style |
| ProductTable.RenderRows | frontend/inventory-frontend/src/components/ProductTable/ProductTable.tsx:101 | exactly one row per product, in order |
| ProductTable.OutOfStockRowIsRed | frontend/inventory-frontend/src/components/ProductTable/ProductTable.tsx:102-137 | an out-of-stock row is checked and its stock is red |
| ProductTable.Click | frontend/inventory-frontend/src/components/ProductTable/ProductTable.tsx:114-152 | edit reports the row's product, delete its `Number(id)`, the checkbox that id and its new checked state, a header its column; a click off the table reports nothing |
| ProductTable.RowEventsCarryId | frontend/inventory-frontend/src/components/ProductTable/ProductTable.tsx:114-116 | a row whose id is an integer's text reports that integer from delete and from the checkbox |
| ProductFilters.InStockOf | frontend/inventory-frontend/src/components/ProductFilters/ProductFilters.tsx:19-20 | "inStock" iff true, "outOfStock" iff false, anything else iff undefined |
| ProductFilters.FilterPanel.constructor | frontend/inventory-frontend/src/components/ProductFilters/ProductFilters.tsx:10-12 | the panel starts with name "", no categories and availability "all", which submit as the cleared criteria |
| ProductFilters.FilterPanel.SetName | frontend/inventory-frontend/src/components/ProductFilters/ProductFilters.tsx:53 | replaces the name; the rest stays |
| ProductFilters.FilterPanel.SetCategories | frontend/inventory-frontend/src/components/ProductFilters/ProductFilters.tsx:64 | replaces the category selection; the rest stays |
| ProductFilters.FilterPanel.SetAvailability | frontend/inventory-frontend/src/components/ProductFilters/ProductFilters.tsx:83 | replaces the availability; the rest stays |
| ProductFilters.FilterPanel.Submit | frontend/inventory-frontend/src/components/ProductFilters/ProductFilters.tsx:14-22 | sends the current name and categories unchanged, and the availability as a stock flag |
| ProductFilters.FilterPanel.Clear | frontend/inventory-frontend/src/components/ProductFilters/ProductFilters.tsx:24-33 | whatever the prior state, resets to "", [] and "all", sends the empty criteria, and a submit right after sends the same |

| ProductForm.WithInput | frontend/inventory-frontend/src/components/ProductForm/ProductForm.tsx:44-47 | only the named field changes, and it holds the raw text |
| ProductForm.Resolved | frontend/inventory-frontend/src/components/ProductForm/ProductForm.tsx:57-61 | the custom option is replaced by the typed category; any other category, and every other field, is kept |
| ProductForm.SaveDisabled | frontend/inventory-frontend/src/components/ProductForm/ProductForm.tsx:150 | definition: an empty name or category, or a price or stock that compares below zero under JavaScript coercion |
| ProductForm.DefaultFormDisabled | frontend/inventory-frontend/src/components/ProductForm/ProductForm.tsx:150 | the empty form cannot be saved |
| ProductForm.EnabledSaveEmits | frontend/inventory-frontend/src/components/ProductForm/ProductForm.tsx:57-61 | an enabled save emits a named product whose numeric price and stock are not negative, and whose category is non-empty unless it came from the custom text |
| ProductForm.EmptyCustomCategoryEmitted | frontend/inventory-frontend/src/components/ProductForm/ProductForm.tsx:60 | with the custom option and nothing typed, save is enabled and emits an empty category, which the backend's category constraint rejects |
| ProductForm.NonNumericPriceKeepsSaveEnabled | frontend/inventory-frontend/src/components/ProductForm/ProductForm.tsx:150 | a price text that is not a number never disables save |
| ProductForm.ProductFormDialog.constructor | frontend/inventory-frontend/src/components/ProductForm/ProductForm.tsx:32-42 | the dialog starts with the default form and no typed category |
| ProductForm.ProductFormDialog.HandleInputChange | frontend/inventory-frontend/src/components/ProductForm/ProductForm.tsx:44-47 | the form takes the input's raw text in that one field; the typed category stays |
| ProductForm.ProductFormDialog.HandleCategoryChange | frontend/inventory-frontend/src/components/ProductForm/ProductForm.tsx:49-55 | the category becomes the choice; the typed category is cleared iff the choice is not the custom option |
| ProductForm.ProductFormDialog.HandleCustomCategoryChange | frontend/inventory-frontend/src/components/ProductForm/ProductForm.tsx:107 | only the typed category changes |
| ProductForm.ProductFormDialog.Reset | frontend/inventory-frontend/src/components/ProductForm/ProductForm.tsx:65-80 | with a product the form becomes it and the typed category stays; without one the form returns to the defaults and the typed category to "" |
| ProductForm.ProductFormDialog.CanSave | frontend/inventory-frontend/src/components/ProductForm/ProductForm.tsx:150 | enabled iff the name and category are non-empty and neither price nor stock compares below zero |
| ProductForm.ProductFormDialog.HandleSave | frontend/inventory-frontend/src/components/ProductForm/ProductForm.tsx:57-63 | emits the form with the category resolved; the state is untouched |
| ProductClient.Values | frontend/inventory-frontend/src/services/productService.ts:15-28 | a value is read back under a key iff some entry carries that key and value; an entry that comes first under that key is read first; never more values than entries |
| ProductClient.ValuesAppend | frontend/inventory-frontend/src/services/productService.ts:20-27 | an append adds its values after the earlier ones under every key |
| ProductClient.SortPair | frontend/inventory-frontend/src/services/productService.ts:20-28 | a sort pair is sent iff the column name is non-empty and a direction is given, as column then direction |
| ProductClient.PaginatedQuery | frontend/inventory-frontend/src/services/productService.ts:15-28 | definition: page and size, then the first and the second sort pair; its read-back is stated by the lemmas below |
| ProductClient.PaginatedParams | frontend/inventory-frontend/src/services/productService.ts:15-28 | page and size, then the first sort pair when sent, then the second |
| ProductClient.PageAndSizeReadBack | frontend/inventory-frontend/src/services/productService.ts:15-18 | page and size come first, once each, and their texts parse back to the numbers sent |
| ProductClient.SortPairsReadBack | frontend/inventory-frontend/src/services/productService.ts:20-28 | each sort key and direction is read back iff its pair was sent, with the values sent |
| ProductClient.SortPairsOrder | frontend/inventory-frontend/src/services/productService.ts:20-28 | with both pairs sent, the first sits right after page and size and the second follows it |
| ProductClient.CategoryParams | frontend/inventory-frontend/src/services/productService.ts:95-97 | one `category` entry per category, in input order |
| ProductClient.FilteredQuery | frontend/inventory-frontend/src/services/productService.ts:92-100 | definition: the name if non-empty, one entry per category if any, the stock flag if given; its read-back is stated by the lemmas below |
| ProductClient.FilteredParams | frontend/inventory-frontend/src/services/productService.ts:92-100 | the name if non-empty, the categories if there are any, the stock flag if given, in that order |
| ProductClient.ParseBool | inventory-service/src/main/java/com/example/inventory_service/controller/ProductController.java:53 | the controller reads "true" as true and "false" as false |
| ProductClient.Bound | inventory-service/src/main/java/com/example/inventory_service/controller/ProductController.java:50-53 | the name is the first `name` value; the category list is every `category` value, or null when there are none |
| ProductClient.FilteredReadBack | frontend/inventory-frontend/src/services/productService.ts:94-100 | the controller reads back the criteria sent, with an empty name and an empty category list arriving as absent |
| ProductClient.EmptyFiltersSendNothing | frontend/inventory-frontend/src/services/productService.ts:92-100 | empty criteria produce no parameters |
| ProductClient.Serve | inventory-service/src/main/java/com/example/inventory_service/controller/ProductController.java:55-58 | on either controller path, the answer is the filter of the listing by the criteria bound from the request, hence a subsequence of the listing |
| ProductClient.FilterAgrees | inventory-service/src/main/java/com/example/inventory_service/service/ProductService.java:64-69 | criteria that agree on every product filter a listing the same way |
| ProductClient.FilteredRequestServes | inventory-service/src/main/java/com/example/inventory_service/controller/ProductController.java:55-58 | whichever path the controller takes, a request built by the frontend gets exactly what the service's filter keeps for those criteria |

## Left out

- HTTP, JSON and URL encoding: the model covers the parameter lists, not the requests. It does not model `URLSearchParams` percent-encoding, axios or fetch, `response.ok`, or Spring's request mapping and exception handler.
- Spring's splitting of a comma inside one `category` value into several entries is not modelled. A second `name` value is also not modelled: the frontend never sends one.
- `ProductClient.ParseBool`: Spring also accepts "yes", "on", "1" and similar texts, and rejects others. The frontend sends only "true" and "false".
- The sort parameters of the page request are built, but the paginated endpoint ignores them (`ProductController.java` 90-96). No sorting is modelled.
- React and MUI: rendering, hook scheduling, dialog open/close and event objects. Component state is modelled as class fields and the handlers as methods.
- `ProductListPage.tsx` and `InventoryMetrics.tsx` orchestration: fetching, alerts, confirmations, stale responses, and how the page wires `onSearch` (it only logs the criteria).
- The clock. `LocalDate.now()` is the `today` parameter. The table's `diffDays` computation from `new Date()` is an input: a day count, or NaN for a date that does not parse. The form's `min` date attribute is not modelled.
- Floating point. Prices, values and averages are `real`, with no IEEE rounding, and the price cell's `toFixed(2)` is not modelled. Quantities are exact integers, wrapped as Java `int`.
- `Js.ToNumber`: it covers numbers, the empty string and `[+-]digits[.digits]` texts. It does not model whitespace trimming, exponents, hex, or `Infinity`; such texts read as NaN.
- `Text.ToLower`: ASCII letters only. Java's and JavaScript's full Unicode case mapping is not modelled.
- Strings are sequences of Unicode scalar values. `Text.Utf16Length` gives Java's code-unit length, but a Java string holding an unpaired surrogate cannot be written in the model.
- Hash-map iteration order is not modelled. `findAll` and the grouping are proved for every enumeration order.
- `ProductService.ProductService.CreateProduct`: requires `nextId < 2^31 - 1`. The `int` counter's wrap after that many creations, and the negative ids it would then produce, are not modelled.
- `Repository.InMemoryProductRepository.Save`: requires the `long` generator to be below its maximum when an id is assigned. The generator's wrap is not modelled.
- Java object aliasing. `updateProduct` mutates the stored object before saving it, and the model's value copy has the same effect. `save` returning the caller's own object is modelled as returning the stored value.
- Null strings. Names and categories are never null in the model, since validation rejects null on create.
- `PageResponse.totalPages` is not modelled; the page response carries content, page, size and total. `InventoryMetric` is the datatype of the same name; its getters and setters are not modelled.
- Bean validation is a predicate, `ProductModel.IsValid`. The message texts are not modelled.
- The dialog's title and button caption ("New Product"/"Edit Product", "Save"/"Update") are not modelled.
