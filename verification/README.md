# E-commerce API core, modelled in Dafny

This project models the data-access and basket core of an ASP.NET e-commerce
API. It covers:

- the query **specifications** for products and orders and the **specification
  evaluator**, which filters, sorts ascending, sorts descending and folds the
  includes into a query;
- the **generic repository** and the **unit of work**, which caches one
  repository per entity type name;
- the Redis-backed **basket repository** and **response cache**, and the
  **cache attribute**, which keys responses by path and sorted query string;
- the **basket**, **order** and **payment** services;
- the range checks on a **basket line**;
- the **picture URL resolvers**.

Conventions used throughout:

- Decimal amounts are integers counting thousandths. The product price column
  is decimal(10,3).
- Clock readings and durations are milliseconds, passed in as `now`.
- Answers from outside systems are parameters:
  - `accepted` is whether Redis takes a write;
  - `dbAccepts` is whether the database takes a batch;
  - `created` is the payment intent the gateway returns.
- The database is a context of three tables. Each table holds committed rows
  and a log of staged changes, and the whole log is committed atomically by
  `SaveChanges`.
- A Redis database is a map from key to value and expiry time. A key is live
  while `now` is at or before its expiry.
- JSON is an encode/decode pair that is assumed lossless.

Each service is proved against a pure plan of what it should do
(`PlanOrder`, `PlanPayment`, `CacheKeyOf`, `RefreshPrices`). The plans carry
the properties: first failure in source order, one order line per basket line,
the payment amount formula, and stable ordering of the query results.

## Model

| member | source | states |
|---|---|---|
| Domain.NewOrder | DomainLayer/ECommerce.Domain/Models/Orders/Order.cs:12-21 | a new order is dated now, has no items, a zero subtotal, the first status and no delivery method loaded |
| Domain.GetTotal | DomainLayer/ECommerce.Domain/Models/Orders/Order.cs:22 | fails exactly when the delivery method is not loaded; otherwise the total exceeds the subtotal by the delivery price |
| Domain.GetTotalMonotone | DomainLayer/ECommerce.Domain/Models/Orders/Order.cs:22 | for a fixed delivery method a larger subtotal never gives a smaller total |
| StableSort.SortBy | InfrastructureLayer/ECommerce.Persistence/SpecificationsEvaluator.cs:21-25 | sorting is a permutation of its input |
| StableSort.SortBySorted | InfrastructureLayer/ECommerce.Persistence/SpecificationsEvaluator.cs:21-25 | the result is ordered by the key, ascending or descending |
| StableSort.SortByKeepsSorted | InfrastructureLayer/ECommerce.Persistence/SpecificationsEvaluator.cs:21-25 | input already ordered by the key comes back unchanged |
| StableSort.SortByKeepsTies | InfrastructureLayer/ECommerce.Persistence/SpecificationsEvaluator.cs:24-25 | the sort is stable: rows with equal keys keep an existing order by a second key |
| Ordering.KeyLeTransitive | InfrastructureLayer/ECommerce.Persistence/SpecificationsEvaluator.cs:21-25 | the key comparison is transitive (with KeyLeTotal and KeyLeAntisymmetric it is a total order) |
| Ordering.KeyLeTotal | InfrastructureLayer/ECommerce.Persistence/SpecificationsEvaluator.cs:21-25 | any two keys compare one way or the other |
| Ordering.KeyLeAntisymmetric | InfrastructureLayer/ECommerce.Persistence/SpecificationsEvaluator.cs:21-25 | two keys that compare both ways are equal |
| SpecificationsEvaluator.Where | InfrastructureLayer/ECommerce.Persistence/SpecificationsEvaluator.cs:18-19 | every row returned is a source row passing the filter; every passing row is returned as often as it is stored |
| SpecificationsEvaluator.WhereIsSubsequence | InfrastructureLayer/ECommerce.Persistence/SpecificationsEvaluator.cs:18-19 | filtering keeps the source order |
| SpecificationsEvaluator.WhereUniqueKey | InfrastructureLayer/ECommerce.Persistence/SpecificationsEvaluator.cs:18-19 | over unique keys a filter selecting one key passes at most one row, the row holding that key when there is one |
| SpecificationsEvaluator.IncludeAllKeepsRows | InfrastructureLayer/ECommerce.Persistence/SpecificationsEvaluator.cs:27-28 | folding the includes leaves the rows alone and appends the navigations in order |
| SpecificationsEvaluator.Filtered | InfrastructureLayer/ECommerce.Persistence/SpecificationsEvaluator.cs:17-19 | with no criteria every row passes; otherwise exactly the satisfying rows, each as often as stored |
| SpecificationsEvaluator.CreateQueryShape | InfrastructureLayer/ECommerce.Persistence/SpecificationsEvaluator.cs:15-30 | the query's rows are the filtered and sorted rows, and it loads the specification's includes |
| SpecificationsEvaluator.CreateQueryPermutesFiltered | InfrastructureLayer/ECommerce.Persistence/SpecificationsEvaluator.cs:21-25 | sorting only rearranges: the result is a permutation of the filtered rows |
| SpecificationsEvaluator.CreateQueryMembers | InfrastructureLayer/ECommerce.Persistence/SpecificationsEvaluator.cs:18-19 | a row is returned iff it is a source row that passes the criteria |
| SpecificationsEvaluator.CreateQueryUnfiltered | InfrastructureLayer/ECommerce.Persistence/SpecificationsEvaluator.cs:17-30 | no criteria and no sort key return the source rows as they are |
| SpecificationsEvaluator.CreateQueryFilters | InfrastructureLayer/ECommerce.Persistence/SpecificationsEvaluator.cs:18-19 | criteria without sort keys return the satisfying rows in source order |
| SpecificationsEvaluator.CreateQueryAscending | InfrastructureLayer/ECommerce.Persistence/SpecificationsEvaluator.cs:21-22 | an ascending key alone gives the filtered rows sorted ascending |
| SpecificationsEvaluator.CreateQueryDescending | InfrastructureLayer/ECommerce.Persistence/SpecificationsEvaluator.cs:24-25 | a descending key gives the filtered rows sorted descending, whatever else is set |
| SpecificationsEvaluator.CreateQueryBothKeys | InfrastructureLayer/ECommerce.Persistence/SpecificationsEvaluator.cs:21-25 | with both keys the descending sort decides the order and the ascending key only orders its ties |
| SpecificationsEvaluator.CreateQueryIgnoresPagination | InfrastructureLayer/ECommerce.Persistence/SpecificationsEvaluator.cs:15-30 | take, skip and the paginated switch change nothing in the result |
| SpecificationsEvaluator.WhereFirst | InfrastructureLayer/ECommerce.Persistence/SpecificationsEvaluator.cs:18-19 | the first row a filter passes is the first passing row of the source |
| SpecificationsEvaluator.CreateQueryFirstRow | InfrastructureLayer/ECommerce.Persistence/SpecificationsEvaluator.cs:15-30 | the query's first row is least among the passing rows in the order that decides the sort, or the first passing source row when nothing is sorted |
| SpecificationsEvaluator.SameCriteriaSameCount | InfrastructureLayer/ECommerce.Persistence/SpecificationsEvaluator.cs:18-19 | two specifications with the same criteria return the same number of rows |
| Specifications.BaseSpecification.constructor | DomainLayer/ECommerce.Services/Specifications/BaseSpecifications.cs:14-22 | the criteria are those given, with no includes and no sort keys |
| Specifications.BaseSpecification.AddInclude | DomainLayer/ECommerce.Services/Specifications/BaseSpecifications.cs:25-28 | the include is appended after those added before it |
| Specifications.BaseSpecification.AddOrderBy | DomainLayer/ECommerce.Services/Specifications/ProductSpecifications.cs:21-23 | sets the ascending key |
| Specifications.BaseSpecification.AddOrderByDesc | DomainLayer/ECommerce.Services/Specifications/OrderSpecification.cs:16 | sets the descending key |
| ProductQuery.ClampPageSize | ECommerce.Shared/Common/ProductQueryParam.cs:29 | the stored size never exceeds 10 or the value given, and equals the value when it is 10 or less |
| ProductQuery.ClampPageSizeIdempotent | ECommerce.Shared/Common/ProductQueryParam.cs:29 | storing the stored size again changes nothing |
| ProductQuery.ProductQueryParam.constructor | ECommerce.Shared/Common/ProductQueryParam.cs:12-20 | no filters, no sort, page index 1, page size 5 |
| ProductQuery.ProductQueryParam.SetPageSize | ECommerce.Shared/Common/ProductQueryParam.cs:22-31 | the page size becomes the clamped value, at most 10 |
| ProductSpecifications.ToLower | DomainLayer/ECommerce.Services/Specifications/ProductSpecifications.cs:14 | lower-casing keeps the length |
| ProductSpecifications.ToLowerIdempotent | DomainLayer/ECommerce.Services/Specifications/ProductSpecifications.cs:14 | lower-casing twice is lower-casing once |
| ProductSpecifications.ProductListSpec | DomainLayer/ECommerce.Services/Specifications/ProductSpecifications.cs:14-35 | the listing filter and brand and type loaded; name ascending sorts ascending by name, price ascending ascending by price, name descending descending by name, price descending descending by price, each with no key in the other direction; no option or an undeclared one sorts by nothing |
| ProductSpecifications.ProductCountSpec | DomainLayer/ECommerce.Services/Specifications/CountProductSpecifications.cs:14 | the count uses the listing's filter with no includes and no sort |
| ProductSpecifications.ProductByIdSpec | DomainLayer/ECommerce.Services/Specifications/ProductSpecifications.cs:38-42 | selects exactly the product with the id, loads brand and type, no sort |
| ProductSpecifications.NewProductSpecifications | DomainLayer/ECommerce.Services/Specifications/ProductSpecifications.cs:14-35 | the constructed object reads as the listing specification of its parameters |
| ProductSpecifications.NewProductSpecificationsById | DomainLayer/ECommerce.Services/Specifications/ProductSpecifications.cs:38-42 | the constructed object reads as the by-id specification |
| ProductSpecifications.NewCountProductSpecifications | DomainLayer/ECommerce.Services/Specifications/CountProductSpecifications.cs:14-17 | the constructed object reads as the count specification |
| ProductSpecifications.SearchIgnoresCase | DomainLayer/ECommerce.Services/Specifications/ProductSpecifications.cs:14 | a search value and its lower-cased form select the same products |
| ProductSpecifications.NoFilterMatchesAll | DomainLayer/ECommerce.Services/Specifications/ProductSpecifications.cs:14 | with no brand, no type and no or empty search every product matches |
| ProductSpecifications.CountMatchesListing | DomainLayer/ECommerce.Services/Specifications/CountProductSpecifications.cs:14 | the count equals the number of listed products, whatever the sort option |
| ProductSpecifications.ListingFollowsSortOption | DomainLayer/ECommerce.Services/Specifications/ProductSpecifications.cs:19-32 | the listed products come back ordered by the key the option names (name or price), ascending or descending as it names |
| ProductSpecifications.UnfilteredCountIsAll | DomainLayer/ECommerce.Services/Specifications/CountProductSpecifications.cs:14 | with no filter the count is the number of products |
| OrderSpecifications.OrdersOfUserSpec | DomainLayer/ECommerce.Services/Specifications/OrderSpecification.cs:12-16 | selects exactly the user's orders, loads items then delivery method, sorts by date descending |
| OrderSpecifications.OrderByIdSpec | DomainLayer/ECommerce.Services/Specifications/OrderSpecification.cs:20-24 | selects exactly the order with the id, same includes, no sort |
| OrderSpecifications.OrderWithPaymentIntentSpec | DomainLayer/ECommerce.Services/Specifications/OrderWithPaymentIntentIdSpecification.cs:13-15 | selects exactly the orders with the payment intent, no includes, no sort |
| OrderSpecifications.NewOrderSpecificationByEmail | DomainLayer/ECommerce.Services/Specifications/OrderSpecification.cs:12-18 | the constructed object reads as the by-user specification |
| OrderSpecifications.NewOrderSpecificationById | DomainLayer/ECommerce.Services/Specifications/OrderSpecification.cs:20-24 | the constructed object reads as the by-id specification |
| OrderSpecifications.NewOrderWithPaymentIntentIdSpecification | DomainLayer/ECommerce.Services/Specifications/OrderWithPaymentIntentIdSpecification.cs:13-15 | the constructed object reads as the payment-intent specification |
| OrderSpecifications.OrdersOfUserResult | DomainLayer/ECommerce.Services/Specifications/OrderSpecification.cs:12-16 | the result holds exactly the user's orders, each as often as stored, newest first, with items and delivery method loaded |
| OrderSpecifications.OrderByIdAtMostOne | DomainLayer/ECommerce.Services/Specifications/OrderSpecification.cs:20 | over unique ids the by-id result has at most one order, the one with the id |
| OrderSpecifications.OrderWithPaymentIntentResult | DomainLayer/ECommerce.Services/Specifications/OrderWithPaymentIntentIdSpecification.cs:13 | the matching orders in stored order, nothing loaded |
| Store.FindByKey | InfrastructureLayer/ECommerce.Persistence/Repos/GenericRepository.cs:27 | a row found holds the key; nothing is found iff no row holds it |
| Store.ReplaceKey | InfrastructureLayer/ECommerce.Persistence/Repos/GenericRepository.cs:33 | the rows with the key are replaced by the entity and the others are kept in place |
| Store.RemoveKey | InfrastructureLayer/ECommerce.Persistence/Repos/GenericRepository.cs:36 | exactly the rows without the key remain |
| Store.ApplyChange | InfrastructureLayer/ECommerce.Persistence/Repos/GenericRepository.cs:30-36 | an insert is refused iff its key exists; an update or a delete is refused iff its key is missing |
| Store.ApplyAllKeepsKeysUnique | InfrastructureLayer/ECommerce.Persistence/UnitOfWork/UnitOfWork.cs:51-54 | a commit that goes through keeps the primary keys unique |
| Store.AddedIsFound | InfrastructureLayer/ECommerce.Persistence/Repos/GenericRepository.cs:30 | after a committed insert the row is found by its key and no earlier row is lost |
| Store.ApplySingleInsert | InfrastructureLayer/ECommerce.Persistence/Repos/GenericRepository.cs:30 | one staged insert commits the row appended exactly when its key is new |
| Store.DbSet.Stage | InfrastructureLayer/ECommerce.Persistence/Repos/GenericRepository.cs:30-36 | the change is logged after the earlier ones and the committed rows do not change |
| Store.StoreContext.SaveChanges | InfrastructureLayer/ECommerce.Persistence/UnitOfWork/UnitOfWork.cs:51-54 | succeeds iff the database accepts and every staged change applies; it then commits all of them, reports their number and clears the logs; otherwise nothing changes |
| Repository.GenericRepository.GetById | InfrastructureLayer/ECommerce.Persistence/Repos/GenericRepository.cs:27 | the row with the key, or nothing iff no committed row has it |
| Repository.GenericRepository.Add | InfrastructureLayer/ECommerce.Persistence/Repos/GenericRepository.cs:30 | stages an insert; the committed rows are unchanged |
| Repository.GenericRepository.Update | InfrastructureLayer/ECommerce.Persistence/Repos/GenericRepository.cs:33 | stages an update; the committed rows are unchanged |
| Repository.GenericRepository.Delete | InfrastructureLayer/ECommerce.Persistence/Repos/GenericRepository.cs:36 | stages a delete; the committed rows are unchanged |
| Repository.GenericRepository.GetAllWithSpecifications | InfrastructureLayer/ECommerce.Persistence/Repos/GenericRepository.cs:38-41 | exactly the rows passing the criteria, each as often as stored |
| Repository.GenericRepository.GetByIdWithSpecifications | InfrastructureLayer/ECommerce.Persistence/Repos/GenericRepository.cs:43-46 | nothing iff no row passes; otherwise the query's first row: no passing row sorts before it by the descending key, or by the ascending key when that is the only one, and with no key it is the first passing row in stored order |
| Repository.UnfilteredIsGetAll | InfrastructureLayer/ECommerce.Persistence/Repos/GenericRepository.cs:23-41 | a specification with no criteria and no sort reads what GetAll reads |
| Repository.SpecificationByKeyIsGetById | InfrastructureLayer/ECommerce.Persistence/Repos/GenericRepository.cs:43-46 | over a table with unique keys, a specification selecting one key returns what GetById returns |
| UnitOfWork.UnitOfWork.constructor | InfrastructureLayer/ECommerce.Persistence/UnitOfWork/UnitOfWork.cs:17-22 | starts with an empty repository cache over the given context |
| UnitOfWork.UnitOfWork.GetRepository | InfrastructureLayer/ECommerce.Persistence/UnitOfWork/UnitOfWork.cs:25-48 | a cached repository of the same type is returned and the cache is unchanged; one of another type with that short name fails the cast; otherwise a new repository over the type's table is created and cached |
| UnitOfWork.UnitOfWork.GetProductRepository | InfrastructureLayer/ECommerce.Persistence/UnitOfWork/UnitOfWork.cs:25-48 | with only domain types cached, the request for products returns a repository over the product table |
| UnitOfWork.UnitOfWork.GetDeliveryMethodRepository | InfrastructureLayer/ECommerce.Persistence/UnitOfWork/UnitOfWork.cs:25-48 | likewise for delivery methods |
| UnitOfWork.UnitOfWork.GetOrderRepository | InfrastructureLayer/ECommerce.Persistence/UnitOfWork/UnitOfWork.cs:25-48 | likewise for orders |
| UnitOfWork.UnitOfWork.SaveChanges | InfrastructureLayer/ECommerce.Persistence/UnitOfWork/UnitOfWork.cs:51-54 | the context's save, with the cache left alone |
| Redis.RedisDatabase.StringGet | InfrastructureLayer/ECommerce.Persistence/BasketRepo/BasketRepository.cs:54 | a value is read iff the key is present and not expired |
| Redis.RedisDatabase.StringSet | InfrastructureLayer/ECommerce.Persistence/BasketRepo/BasketRepository.cs:33-37 | an accepted write is readable throughout its time to live and gone after it; other keys are unaffected |
| Redis.RedisDatabase.KeyDelete | InfrastructureLayer/ECommerce.Persistence/BasketRepo/BasketRepository.cs:47 | reports whether a live value was there; the key is gone; other keys are unaffected |
| BasketRepository.BasketRepository.GetBasket | InfrastructureLayer/ECommerce.Persistence/BasketRepo/BasketRepository.cs:51-62 | missing, expired or empty text reads as no basket; a stored encoding reads back as its basket |
| BasketRepository.BasketRepository.CreateUpdateBasket | InfrastructureLayer/ECommerce.Persistence/BasketRepo/BasketRepository.cs:27-41 | an accepted write stores the encoding under the basket id for the given time or 5 hours and returns the basket as read back; a refused write returns nothing and changes nothing |
| BasketRepository.BasketRepository.DeleteBasket | InfrastructureLayer/ECommerce.Persistence/BasketRepo/BasketRepository.cs:44-48 | reports whether a live basket was there; afterwards none is; other baskets are unaffected |
| CacheRepository.CacheRepository.Get | InfrastructureLayer/ECommerce.Persistence/Repos/CacheRepository.cs:24-28 | a missing, expired or empty value reads as absent, and anything else as the stored text |
| CacheRepository.CacheRepository.Set | InfrastructureLayer/ECommerce.Persistence/Repos/CacheRepository.cs:31-34 | an accepted write stores the text for the time to live; other keys are unaffected |
| CacheAttribute.SortedQuery | InfrastructureLayer/ECommerce.Presentation/Attribute/CacheAttribute.cs:67 | the parameters are ordered by name and form a permutation of the query |
| CacheAttribute.SegmentsAppend | InfrastructureLayer/ECommerce.Presentation/Attribute/CacheAttribute.cs:67-70 | one more parameter appends exactly its `name=value&` segment |
| CacheAttribute.CacheKeyOf | InfrastructureLayer/ECommerce.Presentation/Attribute/CacheAttribute.cs:59-73 | every key starts with the path and "?"; an empty query gives exactly that |
| CacheAttribute.CreateCacheKey | InfrastructureLayer/ECommerce.Presentation/Attribute/CacheAttribute.cs:59-73 | the loop builds the key the key function describes |
| CacheAttribute.AppendSegments | InfrastructureLayer/ECommerce.Presentation/Attribute/CacheAttribute.cs:67-70 | the loop appends exactly the segments of the parameters, in their order |
| CacheAttribute.SortedDictionaryUnique | InfrastructureLayer/ECommerce.Presentation/Attribute/CacheAttribute.cs:67 | two name-sorted orderings of one dictionary are the same sequence |
| CacheAttribute.CacheKeyIgnoresArrivalOrder | InfrastructureLayer/ECommerce.Presentation/Attribute/CacheAttribute.cs:59-73 | the key does not depend on the order in which the parameters arrived |
| CacheAttribute.CacheAttribute.constructor | InfrastructureLayer/ECommerce.Presentation/Attribute/CacheAttribute.cs:18 | keeps the duration it is given, which defaults to 90 seconds |
| CacheAttribute.CacheAttribute.OnActionExecution | InfrastructureLayer/ECommerce.Presentation/Attribute/CacheAttribute.cs:20-56 | a cache hit answers with the cached JSON, status 200, without running the action; a miss runs the action once and caches only an object result, for the duration |
| BasketServices.BasketServices.GetBasket | DomainLayer/ECommerce.Services/BusinessServices/BasketServices.cs:54-65 | the stored basket, or basket-not-found naming the key |
| BasketServices.BasketServices.CreateOrUpdateBasket | DomainLayer/ECommerce.Services/BusinessServices/BasketServices.cs:31-44 | an accepted write returns the basket, which then reads back for 5 hours; a refused one is the basket-processing error |
| BasketServices.BasketServices.DeleteBasket | DomainLayer/ECommerce.Services/BusinessServices/BasketServices.cs:47-51 | after the delete the basket is not found; other baskets are unaffected |
| BasketLines.FirstMissingProduct | DomainLayer/ECommerce.Services/BusinessServices/OrderServices.cs:50-55 | nothing iff every line's product is stored; otherwise the id of the first line whose product is not |
| OrderServices.OrderItemsFor | DomainLayer/ECommerce.Services/BusinessServices/OrderServices.cs:58-69 | one order line per basket line, in order, carrying its id, name, picture, price and quantity |
| OrderServices.SubTotalOfBasket | DomainLayer/ECommerce.Services/BusinessServices/OrderServices.cs:82 | the order subtotal equals the basket's total of price times quantity |
| OrderServices.PlanOrder | DomainLayer/ECommerce.Services/BusinessServices/OrderServices.cs:33-95 | the first failure in source order (basket, product, delivery method); otherwise an order for the user, address and delivery method with one line per basket line and the basket total as subtotal |
| OrderServices.PlannedOrderTotal | DomainLayer/ECommerce.Services/BusinessServices/OrderServices.cs:82-85 | a new order's total is the basket total plus the delivery price |
| OrderServices.OrderServices.CreateOrder | DomainLayer/ECommerce.Services/BusinessServices/OrderServices.cs:33-95 | returns the planned order and commits it as the only new row when the database accepts; a planning failure stages nothing and saves nothing; a refused save commits nothing |
| OrderServices.OrderServices.PrepareOrder | DomainLayer/ECommerce.Services/BusinessServices/OrderServices.cs:36-85 | the steps before anything is staged yield exactly the planned order or the plan's first failure |
| OrderServices.OrderServices.ConvertItems | DomainLayer/ECommerce.Services/BusinessServices/OrderServices.cs:50-73 | the loop fails on the first line whose product is missing, else yields one order line per basket line |
| OrderServices.OrderServices.GetDeliveryMethods | DomainLayer/ECommerce.Services/BusinessServices/OrderServices.cs:97-101 | every stored delivery method, in stored order, ids unique |
| OrderServices.OrderServices.GetAllOrders | DomainLayer/ECommerce.Services/BusinessServices/OrderServices.cs:103-111 | exactly the user's orders, each as often as stored, newest first |
| OrderServices.OrderServices.GetOrderById | DomainLayer/ECommerce.Services/BusinessServices/OrderServices.cs:113-120 | the order with the id, or nothing iff no order has it |
| PaymentServices.TruncDiv | DomainLayer/ECommerce.Services/BusinessServices/PaymentServices.cs:52 | the quotient rounds toward zero |
| PaymentServices.Wrap64 | DomainLayer/ECommerce.Services/BusinessServices/PaymentServices.cs:52 | the result is in the 64-bit range, congruent to the input modulo 2^64, and the input itself when it fits |
| PaymentServices.ItemsChargeIsHundredfoldTotal | DomainLayer/ECommerce.Services/BusinessServices/PaymentServices.cs:52 | the items part of the charge is a hundred times the basket total |
| PaymentServices.PaymentAmount | DomainLayer/ECommerce.Services/BusinessServices/PaymentServices.cs:52 | fails with an overflow iff the truncated charge leaves the 64-bit range; otherwise it is a hundred times the truncated charge, modulo 2^64 |
| PaymentServices.AmountIsWholeHundreds | DomainLayer/ECommerce.Services/BusinessServices/PaymentServices.cs:52 | unless the last multiplication wraps around, the amount is a multiple of 100 |
| PaymentServices.AmountInCents | DomainLayer/ECommerce.Services/BusinessServices/PaymentServices.cs:52 | for whole-cent lines and a whole-unit delivery price, the amount counts the lines at 100 times their cents and the delivery at its cents |
| PaymentServices.RefreshPrices | DomainLayer/ECommerce.Services/BusinessServices/PaymentServices.cs:43-47 | every line keeps its id, name, picture and quantity and takes its product's current price |
| PaymentServices.RefreshPricesIdempotent | DomainLayer/ECommerce.Services/BusinessServices/PaymentServices.cs:43-47 | repricing from an unchanged table twice is repricing once |
| PaymentServices.PlanPayment | DomainLayer/ECommerce.Services/BusinessServices/PaymentServices.cs:33-83 | the first failure in source order (basket, product, missing delivery method id, delivery method, overflow); otherwise the repriced basket with the delivery price as shipping price, and a create call (whose id and secret the basket takes) when it has no intent, an update of its intent otherwise, both with the amount |
| PaymentServices.RepeatedPaymentUpdates | DomainLayer/ECommerce.Services/BusinessServices/PaymentServices.cs:56-76 | asking again over unchanged tables updates the same intent with the same amount and leaves the basket as it is |
| PaymentServices.PaymentServices.CreateOrUpdatePaymentIntent | DomainLayer/ECommerce.Services/BusinessServices/PaymentServices.cs:33-83 | returns the planned basket and makes the planned gateway call; it writes the basket back for 5 hours and ignores the outcome of the write; a failure calls nothing and writes nothing; the database is never saved |
| PaymentServices.PaymentServices.RefreshItemPrices | DomainLayer/ECommerce.Services/BusinessServices/PaymentServices.cs:43-47 | the loop fails on the first line whose product is missing, else yields the repriced lines |
| BasketItemValidation.ValidationErrors | ECommerce.Shared/DTOs/BasketDTOs/BasketItemDTO.cs:12-20 | the quantity fails iff it is outside 1 to 100; the price fails iff it is below one unit; the picture fails iff it is missing; the name never fails; nothing else fails |
| BasketItemValidation.ValidBasketItemBounds | ECommerce.Shared/DTOs/BasketDTOs/BasketItemDTO.cs:12-20 | a line is valid iff its quantity is 1 to 100, its price at least one unit and its picture present, whatever its text |
| BasketItemValidation.ValidationIgnoresIdentity | ECommerce.Shared/DTOs/BasketDTOs/BasketItemDTO.cs:12-14 | the id, the name and the picture's text play no part in the checks; only whether a picture is present does |
| PictureUrl.ResolvePictureUrl | DomainLayer/ECommerce.Services/MappingProfile/PictureUrlResolver.cs:24-35 | empty iff the path is missing or empty; otherwise the base address followed by the path, of their combined length |
| PictureUrl.OrderItemPictureUrl | DomainLayer/ECommerce.Services/MappingProfile/OrderPictureUrlResolver.cs:24-34 | an order line's address is the one a product with the same picture path gets |

## Left out

- Asynchrony and concurrency: every call is one atomic step. Two requests racing on one basket or one context are not modelled.
- The gateway's own behaviour is not modelled: its failures, its API key and the currency. Its answer to a create is a parameter.
- Decimal arithmetic is exact here. The decimal(8,2) rounding of the order subtotal on save and overflow of decimal arithmetic itself are not modelled.
- Culture-sensitive comparison and lower-casing are not modelled. Sorting by name is ordinal, and `ToLower` and the search use ASCII case folding.
- Entity Framework's SQL translation, change tracking and identity map are not modelled.
  - Query order is LINQ-to-objects order: a stable sort, and stored order when nothing is sorted. In SQL, `OrderBy(a).OrderByDescending(b)` becomes `ORDER BY b` alone, and rows without `ORDER BY` come back in an order the database does not define. So `CreateQueryBothKeys`, `CreateQueryFilters`, `CreateQueryFirstRow`, `SortByKeepsTies` and the stored order of `GetDeliveryMethods` hold for the in-memory evaluation only. No specification in the program sets both keys (`ProductSpecifications.cs` lines 19-35, `OrderSpecification.cs` line 16).
  - `FindAsync` is read against the committed rows only, not entities that are tracked but not yet saved.
  - `Update` of an untracked entity always stages a modification.
  - The count `SaveChanges` reports counts the staged changes, not owned or related rows.
- Query strings with repeated names are not modelled: a parameter's values arrive already joined into one text.
- AutoMapper and the cache service are folded in. Mapping is the identity on baskets, and the cache service's JSON serialisation is the attribute's `serialize` function.
- Malformed JSON under a basket key reads as no basket in the model. The source's deserializer throws on malformed text (InfrastructureLayer/ECommerce.Persistence/BasketRepo/BasketRepository.cs:61), so the request ends as a server error, not as "basket not found". The literal `null` reads as no basket in both.
- Order ids and order dates are parameters instead of being generated.
- Field names follow the model, not the files:
  - the product's brand and type id fields are spelled differently in `Product.cs` and in the specifications;
  - `Order.cs` has no `PaymentIntentId`, but the payment-intent specification filters on one. The model gives `Order` that field.
  - `OrderServices.cs` line 85 calls an `Order` constructor taking email, address, delivery method, items and subtotal, which `Order.cs` does not declare. The model takes it to set those members, the delivery method id from the delivery method, and leave the rest at their initial values.
  - `BaseSpecifications.cs` declares no sort keys, but the specifications and the evaluator use them. The model gives the base specification `AddOrderBy` and `AddOrderByDesc`.
- Domain.NewOrder: the email and the address start empty, where `Order.cs` lines 12 and 14 leave them null. Every order the program stores has both set.
- ProductSpecifications.ProductCriteria: takes the brand, type and search values when the specification is built. The C# lambda captures the query-parameter object and reads it when the query runs, so a change to that object in between would change the filter. No caller changes it.
- BasketItemValidation.ValidationErrors: the name is always present in the model, so the implicit required check on a missing (null) name is not modelled. The implicit check on the picture is modelled, assuming nullable reference types are on in the shared project; the `string?` members elsewhere in that project point that way. The inferred required check admits empty and white-space-only text, and a JSON body keeps `""` as it is, so only a missing value fails it.
- Redis.RedisDatabase.StringSet: requires a positive time to live. Redis refuses a non-positive expiry, and the model does not describe what the client does then.
- BasketRepository.BasketRepository.CreateUpdateBasket: requires a positive time to live when one is given, for the same reason.
- CacheRepository.CacheRepository.Set: requires a positive time to live, for the same reason.
- CacheAttribute.CacheAttribute.OnActionExecution: requires a positive duration, for the same reason; the source accepts any integer.
- UnitOfWork.UnitOfWork.GetProductRepository: requires that only the domain's own entity types have been requested. Two entity types sharing a short name, which would make the cast fail, are covered only by `GetRepository`.
- OrderServices.OrderServices.CreateOrder: requires that nothing is staged when the request starts. This is a fresh context per request, as the web host scopes it.
- PaymentServices.PaymentAmount: the multiple-of-100 property holds only when the final multiplication does not wrap around. With wrap-around the amount is the 64-bit residue.
- The loops of order creation and payment, and the steps of order creation before anything is staged, are separate methods (`ConvertItems`, `RefreshItemPrices`, `PrepareOrder`), as is the key builder's loop (`AppendSegments`).
- The payment amount counts item lines at 100 times their value in cents. The model keeps the formula as written, and `AmountInCents` states the scaling.
