# store: a verified model of the service layer

This project is a Dafny model of the service layer of `store`, a Spring Boot
REST application that keeps customers, products and orders. The model covers
these parts:

- **Order service.** `createOrder` checks that the customer exists and that
  every requested product exists. It reports missing products in request order,
  then saves one order. `getOrderByID` and `getAllOrders` look orders up.
- **Customer service.** `getAllCustomers` trims the name filter. A null or
  blank name runs the unfiltered scan. Any other name runs the case-insensitive
  substring query. Each page is cached in `customersPage`, under a key built
  from the trimmed name and the page request. `createCustomer` saves a customer
  and evicts every cached page.
- **Product service and mapper.** `createProduct`, `getProductByID` and
  `getAllProducts` are modelled. `ProductMapper.mapOrderIds` turns a product's
  orders into their ids, and a null list into the empty list.
- **Exception handler.** `GlobalExceptionHandler.handleNotFound` turns a
  404 `ResponseStatusException` into a 404 JSON body. It throws every other
  status on unchanged.

The model is organized as follows:

- The database is a `Store` class. It holds one map per table and one id
  counter per table. Its saves assign the next id. Its invariant `Valid` says:
  - every record is stored under its own id;
  - ids lie below the counter;
  - every stored order refers to the stored customer and the stored products.
- Repository queries are functions on the `Store`. For example, a page is the
  slice that `PageOf` cuts out of the stored keys, put in the order the sort asks for (ascending when unsorted).
- `CustomerService` is a class that owns the cache. Its invariant says that
  every cached page equals the page the listing would compute now. This is
  sound because the cache key is injective (`CacheKeyInjective`). The key
  determines the trimmed-or-empty name and the whole page request, so the key
  determines the query (`SameKeySameQuery`).
- Java's string conversions are written out:
  - `String.trim` drops characters up to U+0020 from both ends.
  - `Long` decimal rendering and `List.toString` ("[10, 20]") are spelled out.
  - Spring's `Sort.toString` is modelled as "UNSORTED", "id: ASC" or "id: DESC".

Files:

- `wrappers.dfy`: the `Option` and `Result` datatypes.
- `text.dfy`: trimming, the blank test, case-insensitive search and number and list rendering.
- `entities.dfy`: the entities, views, paging types and the exception.
- `product_mapper.dfy` and `views.dfy`: the mappers.
- `repositories.dfy`: the store.
- `order_service.dfy`, `product_service.dfy` and `customer_service.dfy`: the services.
- `exception_handler.dfy`: the handler.

## Model

| member | source | states |
|---|---|---|
| OrderService.CreateOrder | src/main/java/com/example/store/service/OrderService.java:39-58 | An unknown customer fails with "Not Found Customer by ID <id>" before products are looked at. Otherwise the requested ids that are not stored are reported as "Not Found Product IDs: [a, b]", in request order. It succeeds exactly when the customer and every requested product are stored. On failure, orders and the order counter are unchanged. On success, exactly one order is added under the next id. That order holds the description, the stored customer and the bulk-looked-up products, and every requested product is listed in it. Looking the new id up returns the same view, and the store invariant is kept. |
| OrderService.Missing | src/main/java/com/example/store/service/OrderService.java:46 | The missing list holds exactly the requested ids that are not found, and is no longer than the request. |
| OrderService.MissingCounts | src/main/java/com/example/store/service/OrderService.java:46 | A missing id is reported as often as it was requested, and a found id never. |
| OrderService.MissingEmpty | src/main/java/com/example/store/service/OrderService.java:46-47 | Nothing is missing if and only if every requested id was found. |
| OrderService.MissingAppend | src/main/java/com/example/store/service/OrderService.java:46 | The filter distributes over concatenation of the request list. |
| OrderService.MissingAgrees | src/main/java/com/example/store/service/OrderService.java:45-46 | Two found-sets that agree on the requested ids give the same missing list. This is how the ids of the bulk lookup are replaced by the stored keys. |
| OrderService.MissingOneUnknown | src/main/java/com/example/store/service/OrderService.java:46 | Requesting [1, 2, 99] with {1, 2} found reports [99]. |
| OrderService.MissingNoneFound | src/main/java/com/example/store/service/OrderService.java:46 | Requesting [10, 20] with nothing found reports [10, 20], in request order. |
| OrderService.MissingRepeatsKept | src/main/java/com/example/store/service/OrderService.java:46 | Requesting [5, 1, 5] with {1} found reports [5, 5], so duplicates are kept. |
| OrderService.FoundIds | src/main/java/com/example/store/service/OrderService.java:45 | Every id of a looked-up product is in the found set. |
| OrderService.FoundIsStored | src/main/java/com/example/store/service/OrderService.java:43-45 | A requested id is among the ids the bulk lookup returns if and only if it is stored. |
| OrderService.MissingIsUnstored | src/main/java/com/example/store/service/OrderService.java:43-47 | The missing list computed from the ids the bulk lookup returns is the list of requested ids that are not stored. It is empty exactly when every requested id is stored. |
| OrderService.LookedUpResolve | src/main/java/com/example/store/service/OrderService.java:51-57 | An order built from a stored customer and the bulk lookup refers only to stored records, exactly as stored. It lists every requested id that is stored. |
| OrderService.GetOrderById | src/main/java/com/example/store/service/OrderService.java:61-64 | It fails if and only if the id is not stored, with "Not Found Order by ID <id>" as the 404 reason. Otherwise it returns the view of the stored order, which carries that id. |
| OrderService.GetAllOrders | src/main/java/com/example/store/service/OrderService.java:34-36 | It keeps the repository page's number, size and total. Each element is the view of the stored order in the same position. |
| ProductService.GetProductById | src/main/java/com/example/store/service/ProductService.java:34-38 | It fails if and only if the id is not stored, with "Not Found Product by ID <id>". Otherwise the view carries the id and the stored description. |
| ProductService.ProductViewOrders | src/main/java/com/example/store/service/ProductService.java:35-37 | A product view lists an order id if and only if that stored order lists the product. |
| ProductService.GetAllProducts | src/main/java/com/example/store/service/ProductService.java:28-31 | It keeps the page metadata, and each element is the view of the stored product in the same position. |
| ProductService.CreateProduct | src/main/java/com/example/store/service/ProductService.java:22-25 | One product is saved under the next id, with the description and no orders list. The view has that id and an empty order list. Looking the id up returns the same view. Nothing else in the store changes, and the invariant is kept. |
| ProductMapper.MapOrderIds | src/main/java/com/example/store/mapper/ProductMapper.java:18-25 | A null list gives the empty list. Otherwise it gives the orders' ids one by one, in order. |
| ProductMapper.MapOrderIdsAppend | src/main/java/com/example/store/mapper/ProductMapper.java:22-24 | Mapping distributes over concatenation. |
| ProductMapper.ProductToView | src/main/java/com/example/store/mapper/ProductMapper.java:15-16 | The view keeps the id and description. Its orders are the mapped ids, and empty for a null list. |
| CustomerService.CustomerService.GetAllCustomers | src/main/java/com/example/store/service/CustomerService.java:25-33 | Whether the cache hits or misses, the caller gets the page the listing computes from the current store. The cache afterwards holds that page under the call's key, and the coherence invariant is kept. |
| CustomerService.CustomerService.CreateCustomer | src/main/java/com/example/store/service/CustomerService.java:35-39 | One customer is saved under the next id, with the name and an empty orders list, and the view carries that id and name. The cache is emptied, nothing else in the store changes, and the invariant is kept. |
| CustomerService.CustomerService.constructor | src/main/java/com/example/store/service/CustomerService.java:18-23 | The service starts over a valid store with an empty cache. |
| CustomerService.CustomerService.Valid | src/main/java/com/example/store/service/CustomerService.java:25-39 | Definition of the service invariant: the store is valid and the cache is coherent with it. |
| CustomerService.ChooseQuery | src/main/java/com/example/store/service/CustomerService.java:29-31 | The unfiltered scan runs if and only if the name is null or trims to a blank string. Otherwise the filter is the trimmed name, which is non-empty. |
| CustomerService.TrimmedName | src/main/java/com/example/store/service/CustomerService.java:29 | Null stays null. A present name becomes its trimmed value, which has no padding at either end and is empty exactly when the name is all padding. |
| CustomerService.KeyName | src/main/java/com/example/store/service/CustomerService.java:27 | The name part of the key is empty for null, and otherwise the trimmed name. |
| CustomerService.CacheKeyInjective | src/main/java/com/example/store/service/CustomerService.java:27 | Equal keys mean equal trimmed-or-empty names, page numbers, page sizes and sorts. |
| CustomerService.KeyFieldsEqual | src/main/java/com/example/store/service/CustomerService.java:27 | Two keys that are equal have equal name, page number, page size and sort fields, provided the last three contain no bar. |
| CustomerService.PeelField | src/main/java/com/example/store/service/CustomerService.java:27 | The last field of a key, a bar and a tag followed by a bar-free value, is cut off in one way only. |
| CustomerService.NoBarConcat | src/main/java/com/example/store/service/CustomerService.java:27 | Helper for `CacheKeyInjective`: joining two bar-free strings gives a bar-free string. |
| CustomerService.DigitsNoBar | src/main/java/com/example/store/service/CustomerService.java:27 | Helper for `CacheKeyInjective`: a number's decimal rendering holds no bar. |
| CustomerService.SplitAtLastBar | src/main/java/com/example/store/service/CustomerService.java:27 | A key whose last part contains no bar splits at its last bar in one way only. |
| CustomerService.SameKeySameQuery | src/main/java/com/example/store/service/CustomerService.java:26-31 | Two listings with the same key run the same repository query. |
| CustomerService.QueryByKeyName | src/main/java/com/example/store/service/CustomerService.java:27-31 | The query depends on the name only through the key's name part. |
| CustomerService.BlankNamesShareKey | src/main/java/com/example/store/service/CustomerService.java:27-31 | A padding-only name, null and "" share one key, and all three run the unfiltered scan. |
| CustomerService.CacheKeyExample | src/main/java/com/example/store/service/CustomerService.java:27 | "  Test " on page 0 of size 10, unsorted, is keyed "name=Test\|p=0\|s=10\|sort=UNSORTED". |
| CustomerService.KeyExampleFields | src/main/java/com/example/store/service/CustomerService.java:27 | For that request the name field is "Test", the page fields are "0" and "10", and the sort is "UNSORTED". |
| CustomerService.RunQuery | src/main/java/com/example/store/repository/CustomerRepository.java:10 | The unfiltered scan totals every stored customer. The name query lists only customers containing the filter, ignoring case, and totals exactly the stored customers that do. |
| CustomerService.FreshPage | src/main/java/com/example/store/service/CustomerService.java:29-32 | The uncached listing keeps the page number and size. The unfiltered scan totals every stored customer. With a filter, every view contains the trimmed filter and the total counts the stored customers that match it. |
| CustomerService.NameFilterExample | src/main/java/com/example/store/service/CustomerService.java:28-32 | With customers "Alice Smith" (id 1) and "bob" stored, filtering by "smith" gives one page holding only Alice, with total 1. |
| CustomerService.FilterIsQueried | src/main/java/com/example/store/service/CustomerService.java:29-31 | The filter "smith" is queried as given: trimming keeps it and it is not blank. |
| CustomerService.FilterFindsAlice | src/main/java/com/example/store/repository/CustomerRepository.java:10 | Of "Alice Smith" and "bob", the name query for "smith" returns Alice alone, with total 1. |
| CustomerService.OnlyAliceMatches | src/main/java/com/example/store/repository/CustomerRepository.java:10 | Only Alice's key matches "smith", ignoring case. |
| CustomerService.Coherent | src/main/java/com/example/store/service/CustomerService.java:25-33 | Definition: every cached page equals the page the uncached listing computes now for any name and request that have its key. |
| CustomerService.CacheKey | src/main/java/com/example/store/service/CustomerService.java:27 | Definition: "name=" and the trimmed name, or nothing for null, then the page number, page size and sort, separated by bars, as the key expression spells it. |
| CustomerService.CacheFreshPage | src/main/java/com/example/store/service/CustomerService.java:25-33 | Storing the freshly computed page under the call's key keeps every cached page equal to the page its listing computes now, because listings that share a key run the same query. |
| GlobalExceptionHandler.HandleNotFound | src/main/java/com/example/store/config/GlobalExceptionHandler.java:15-27 | A status other than 404 is rethrown unchanged. A 404 gives HTTP 404 and a body with the timestamp, status 404 and error "Not Found". The body's message is the reason, or "Not found" when there is none. |
| GlobalExceptionHandler.OrderNotFoundResponse | src/main/java/com/example/store/service/OrderService.java:62-63 | A missed order lookup is answered with 404 and "Not Found Order by ID <id>". Two missing ids get the same message if and only if they are equal. |
| GlobalExceptionHandler.ProductNotFoundResponse | src/main/java/com/example/store/service/ProductService.java:35-36 | The same holds for product lookups, with "Not Found Product by ID <id>". |
| GlobalExceptionHandler.PrefixCancels | src/main/java/com/example/store/service/OrderService.java:63 | Helper for the message injectivity proofs: strings that share a prefix are equal only if their suffixes are. |
| Repositories.Store.FindAllProductsById | src/main/java/com/example/store/service/OrderService.java:43 | It returns stored products whose ids were requested, in ascending id order and each once. Every requested stored product is among them. |
| Repositories.WithIds | src/main/java/com/example/store/service/OrderService.java:43 | The products returned are stored under their ids, requested, with ids in [1, hi), and in ascending id order. Every requested product stored under an id in [1, hi) is among them. |
| Repositories.Store.FindProductById | src/main/java/com/example/store/service/ProductService.java:35 | It finds a product if and only if it is stored. Its loaded orders list is exactly the stored orders that list the product. |
| Repositories.Store.OrdersWithProductMembers | src/main/java/com/example/store/mapper/ProductMapper.java:15 | The lazily loaded orders of a product are exactly the stored orders listing it. |
| Repositories.Store.OrdersWithProduct | src/main/java/com/example/store/mapper/ProductMapper.java:15 | Definition of the lazily loaded relation: the stored orders that list the product, in ascending order id. |
| Repositories.Store.Loaded | src/main/java/com/example/store/mapper/ProductMapper.java:15 | Loading keeps the id and description, and sets the orders list to the stored orders that list the product. |
| Repositories.Store.FindCustomerById | src/main/java/com/example/store/service/OrderService.java:40 | It finds a customer if and only if it is stored, and returns the stored record. |
| Repositories.Store.FindOrderById | src/main/java/com/example/store/repository/OrderRepository.java:17-19 | It finds an order if and only if it is stored, and returns the stored record. |
| Repositories.Store.FindAllOrders | src/main/java/com/example/store/repository/OrderRepository.java:13-15 | The total is the number of stored orders, and every listed order is stored under its own id. |
| Repositories.Store.FindAllCustomers | src/main/java/com/example/store/service/CustomerService.java:31 | The total is the number of stored customers, and every listed customer is stored. |
| Repositories.Store.FindCustomersByName | src/main/java/com/example/store/repository/CustomerRepository.java:10 | Every listed customer is stored and contains the name, ignoring case. The total is the number of stored customers whose names contain it, so every match is counted. |
| Repositories.Store.MatchingCustomerKeys | src/main/java/com/example/store/repository/CustomerRepository.java:10 | The keys are ascending, and a key is listed if and only if it is stored, below the counter, and its customer's name contains the filter, ignoring case. |
| Repositories.Store.MatchingCustomerCount | src/main/java/com/example/store/repository/CustomerRepository.java:10 | The name query lists as many keys as there are stored customers whose names contain the filter. |
| Repositories.Store.FindAllProducts | src/main/java/com/example/store/service/ProductService.java:29 | The total is the number of stored products. Every listed product is stored, keeps its description, and has its orders loaded as the stored orders that list it. |
| Repositories.Store.LoadedRecords | src/main/java/com/example/store/service/ProductService.java:29 | The products under the keys are returned in key order, each with its orders loaded. |
| Repositories.Store.LoadedRecordsStored | src/main/java/com/example/store/service/ProductService.java:29 | Each loaded product is stored under its id, keeps its description, and carries the stored orders that list it. |
| Repositories.Store.SaveCustomer | src/main/java/com/example/store/service/CustomerService.java:38 | The record is stored under a fresh next id, and the invariant is kept. |
| Repositories.Store.SaveProduct | src/main/java/com/example/store/service/ProductService.java:24 | The record is stored under a fresh next id, and the invariant is kept. |
| Repositories.Store.SaveOrder | src/main/java/com/example/store/service/OrderService.java:57 | An order that refers to stored records is stored under a fresh next id, and the invariant is kept. |
| Repositories.Store.constructor | src/main/java/com/example/store/repository/OrderRepository.java:12 | The store starts empty and valid, with every counter at 1. |
| Repositories.Store.Valid | src/main/java/com/example/store/entity/Customer.java:21-23 | Definition of the store invariant: every record is stored under its own generated id, below its counter, and every stored order resolves. |
| Repositories.Store.Resolves | src/main/java/com/example/store/service/OrderService.java:51-57 | Definition: the order's customer and each of its products is a stored record, exactly as stored. |
| Repositories.FilterKeysIncreasing | src/main/java/com/example/store/service/OrderService.java:43 | Filtering ascending ids keeps them ascending. |
| Repositories.KeysBetween | src/main/java/com/example/store/repository/OrderRepository.java:15 | The result holds exactly the stored keys in the range, in ascending order. |
| Repositories.KeysBetweenCount | src/main/java/com/example/store/repository/OrderRepository.java:15 | When every stored key lies in the range, the scan lists each stored key once, so its length is the number of records. |
| Repositories.DistinctCard | src/main/java/com/example/store/repository/OrderRepository.java:15 | Ascending keys are distinct: as many keys as elements. |
| Repositories.FilterKeys | src/main/java/com/example/store/service/OrderService.java:43 | The result holds exactly the keys the filter keeps, and is no longer than the input. |
| Repositories.Reverse | src/main/java/com/example/store/repository/OrderRepository.java:15 | The result has the same length, with element i taken from the mirrored position. |
| Repositories.Records | src/main/java/com/example/store/repository/OrderRepository.java:15 | Every key is stored, and the records are returned in key order. |
| Repositories.RecordsIndex | src/main/java/com/example/store/repository/OrderRepository.java:15 | Every element of the records is the record stored under one of the keys. |
| Repositories.RecordsCoverAll | src/main/java/com/example/store/repository/OrderRepository.java:15 | Every key the filter keeps contributes its stored record. |
| Repositories.Ordered | src/main/java/com/example/store/repository/OrderRepository.java:15 | The keys are kept as a set and in number, and a descending id sort reverses ascending keys. |
| Entities.PageOf | src/main/java/com/example/store/repository/OrderRepository.java:15 | The total is the number of rows, and the content holds at most one page size of rows. A full page is the slice at the offset. The last page is the tail, and a page past the end is empty. |
| Entities.MapPage | src/main/java/com/example/store/service/OrderService.java:36 | Mapping keeps the length, number, size and total, and maps each element in place. |
| Entities.TotalPagesIsCeiling | src/test/java/com/example/store/service/OrderServiceTest.java:116-129 | The page count is the ceiling of total over size. |
| Entities.TotalPagesExamples | src/test/java/com/example/store/service/OrderServiceTest.java:116-129 | 11 rows at size 5 make 3 pages, and 2 rows at size 10 make 1. |
| Entities.TotalPages | src/test/java/com/example/store/service/OrderServiceTest.java:129 | Definition of `getTotalPages`: the total divided by the page size, rounded up, and 1 when the size is 0. |
| Entities.ValidCreateOrderRequest | src/main/java/com/example/store/dto/request/CreateOrderRequest.java:10-12 | Definition: the description trims to a non-empty string and the id list is not empty. |
| Entities.SortToString | src/main/java/com/example/store/service/CustomerService.java:27 | The rendering of a sort contains no bar. |
| Entities.SortToStringInjective | src/main/java/com/example/store/service/CustomerService.java:27 | Distinct sorts render differently. |
| Entities.NotFound | src/main/java/com/example/store/service/OrderService.java:41 | The exception has status 404 and the given reason. |
| Views.OrderToView | src/main/java/com/example/store/service/OrderService.java:57 | The view keeps id and description, the customer's id and name, and each product's id and description in order. |
| Views.CustomerToView | src/main/java/com/example/store/service/CustomerService.java:38 | The view keeps id and name. |
| Text.Trim | src/main/java/com/example/store/service/CustomerService.java:29 | The result has no padding at either end, and is empty exactly when the input is all padding. |
| Text.TrimPadded | src/main/java/com/example/store/service/CustomerService.java:29 | Trimming padding around an unpadded string gives that string. |
| Text.TrimStartPadded | src/main/java/com/example/store/service/CustomerService.java:29 | Trimming the front drops exactly the leading padding. |
| Text.TrimEndPadded | src/main/java/com/example/store/service/CustomerService.java:29 | Trimming the end drops exactly the trailing padding. |
| Text.TrimStart | src/main/java/com/example/store/service/CustomerService.java:29 | The result is a suffix of the input, with only padding removed and no padding at its front. |
| Text.TrimEnd | src/main/java/com/example/store/service/CustomerService.java:29 | The result is a prefix of the input, with only padding removed and no padding at its end. |
| Text.TrimIdempotent | src/main/java/com/example/store/service/CustomerService.java:29 | Trimming twice is trimming once. |
| Text.TrimmedBlank | src/main/java/com/example/store/service/CustomerService.java:30 | For ASCII input, a trimmed string is blank if and only if it is empty. |
| Text.IsJavaWhitespace | src/main/java/com/example/store/service/CustomerService.java:30 | Definition of `Character.isWhitespace`: the Unicode separators other than the no-break spaces, and the controls U+0009-U+000D and U+001C-U+001F. |
| Text.IsBlank | src/main/java/com/example/store/service/CustomerService.java:30 | Definition of `isBlank` on a present string: every character is whitespace, so the empty string is blank. |
| Text.ContainsIgnoreCase | src/main/java/com/example/store/repository/CustomerRepository.java:10 | Definition of the query predicate: the lowered filter occurs in the lowered name. |
| Text.ContainsIgnoreCaseExample | src/main/java/com/example/store/repository/CustomerRepository.java:10 | "Alice Smith" contains "smith" ignoring case, and "bob" does not. |
| Text.LowerAll | src/main/java/com/example/store/repository/CustomerRepository.java:10 | Each character is lowered in place. |
| Text.Lower | src/main/java/com/example/store/repository/CustomerRepository.java:10 | ASCII capitals move to lower case, and everything else is kept. |
| Text.NatToString | src/main/java/com/example/store/service/CustomerService.java:27 | The rendering is non-empty and all digits. |
| Text.NatToStringInjective | src/main/java/com/example/store/service/CustomerService.java:27 | Distinct numbers render differently. |
| Text.IntToString | src/main/java/com/example/store/service/OrderService.java:41 | A negative id is a minus sign before the rendering of its magnitude. |
| Text.IntToStringInjective | src/main/java/com/example/store/service/OrderService.java:63 | Distinct ids render differently. |
| Text.IdsToString | src/main/java/com/example/store/service/OrderService.java:48 | The list is bracketed, and is "[]" exactly when it is empty. |
| Text.IdsToStringExamples | src/main/java/com/example/store/service/OrderService.java:48 | [99] renders as "[99]" and [10, 20] as "[10, 20]". |
| Text.JoinIds | src/main/java/com/example/store/service/OrderService.java:48 | The joined ids are empty exactly when the list is. |

## Left out

- The controllers, request validation and HTTP routing are not modelled. `CreateOrder` requires what `CreateOrderRequest.java:10-12` validates: a non-blank description and a non-empty id list.
- Null ids are not modelled. A null id passed to `getOrderByID` or `getProductByID` is reached only by the mocked tests: over HTTP the id is a path variable, so it is never null. A null element inside `productIds` can arrive over HTTP, because `CreateOrderRequest.java:12` constrains the list and not its elements; the model's ids are integers, so how `createOrder` handles such an element is not modelled.
- Ids are unbounded integers, so 64-bit overflow of the identity counters is not modelled.
- The database's row order for unsorted scans and for `findAllById` is not specified. The model uses ascending id.
- Sorting is modelled by id only. `Sort` has three forms: unsorted, id ascending and id descending.
- `StringUtils.isBlank` is modelled as "every character is Java whitespace". Its library source is not part of this model.
- Case-insensitive matching lowers ASCII letters only.
- The Product and Order entity classes, the customer and order mappers and the DTO classes are not part of this model. Their fields are taken from how the services use them. The customer view holds id and name only.
- Transactions, concurrency, JPA sessions and flush timing are not modelled. Lazy loading is modelled as computing a product's orders from the stored orders that list it.
- The handler's `LocalDateTime.now()` becomes a `Timestamp` parameter.
- The order and product services have no caches in the code, so none are modelled.
- `CreateOrder` is a module-level method that takes the store, and it is not part of a class. Its out-parameter is a `Result` in place of a thrown exception.
- Missing product ids are reported in request order with duplicates kept, as the stream filter in `OrderService.java:46` does; they are not sorted or deduplicated. `createOrder` evicts no cache, as in the code.
