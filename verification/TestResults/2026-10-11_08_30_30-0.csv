TestResult.DisplayName,TestResult.Outcome,TestResult.Duration,TestResult.ResourceCount,RandomSeed
OrderServices.OrderServices.CreateOrder (correctness),Passed,00:00:00.9209563,2121628,6
PaymentServices.PaymentServices.CreateOrUpdatePaymentIntent (correctness),Passed,00:00:00.7157605,1623556,6
CacheAttribute.SortedDictionaryUnique (correctness),Passed,00:00:00.4082300,1313245,6
Store.StoreContext.SaveChanges (correctness),Passed,00:00:00.3014429,671368,6
OrderSpecifications.OrdersOfUserResult (correctness),Passed,00:00:00.2555365,612502,6
Repository.SpecificationByKeyIsGetById (correctness),Passed,00:00:00.2514925,597691,6
OrderServices.OrderServices.GetOrderById (correctness),Passed,00:00:00.1936987,495460,6
PaymentServices.PaymentServices.RefreshItemPrices (correctness),Passed,00:00:00.1914558,523436,6
PaymentServices.PlanPayment (well-formedness),Passed,00:00:00.1891202,311033,6
StableSort.InsertKeepsTies (correctness),Passed,00:00:00.1850742,561145,6
OrderServices.OrderServices.ConvertItems (correctness),Passed,00:00:00.1833417,589687,6
CacheAttribute.CreateCacheKey (correctness),Passed,00:00:00.1608662,428458,6
CacheAttribute.CacheAttribute.OnActionExecution (correctness),Passed,00:00:00.1530502,341284,6
OrderServices.OrderServices.GetAllOrders (correctness),Passed,00:00:00.1527340,367476,6
OrderServices.OrderServices.CreateOrder (well-formedness),Passed,00:00:00.1376278,302352,6
SpecificationsEvaluator.WhereUniqueKey (correctness),Passed,00:00:00.1321751,286732,6
UnitOfWork.UnitOfWork.GetRepository (correctness),Passed,00:00:00.1288736,335446,6
OrderServices.PlanOrder (well-formedness),Passed,00:00:00.1252132,301915,6
OrderServices.PlannedOrderTotal (correctness),Passed,00:00:00.1158486,266411,6
StableSort.InsertSorted (correctness),Passed,00:00:00.1072175,211779,6
Store.StoreContext.SaveChanges (well-formedness),Passed,00:00:00.1067440,144256,6
PaymentServices.PaymentServices.CreateOrUpdatePaymentIntent (well-formedness),Passed,00:00:00.1043213,277606,6
PaymentServices.RefreshPrices (well-formedness),Passed,00:00:00.1003619,159113,6
Repository.GenericRepository.GetByIdWithSpecifications (well-formedness),Passed,00:00:00.0986896,151644,6
OrderSpecifications.OrderByIdSpec (well-formedness),Passed,00:00:00.0981686,80149,6
UnitOfWork.UnitOfWork.SaveChanges (well-formedness),Passed,00:00:00.0966546,153987,6
Repository.SpecificationByKeyIsGetById (well-formedness),Passed,00:00:00.0953377,103390,6
UnitOfWork.UnitOfWork.Serves (well-formedness),Passed,00:00:00.0943342,42490,6
SpecificationsEvaluator.CreateQueryIgnoresPagination (correctness),Passed,00:00:00.0914906,220225,6
StableSort.BeforeTransitive (correctness),Passed,00:00:00.0909287,42460,6
Repository.GenericRepository.GetAllWithSpecifications (well-formedness),Passed,00:00:00.0907031,164777,6
ProductSpecifications.NewProductSpecifications (correctness),Passed,00:00:00.0899312,208444,6
PaymentServices.PaymentServices.Plan (well-formedness),Passed,00:00:00.0896594,164852,6
UnitOfWork.UnitOfWork.GetRepository (well-formedness),Passed,00:00:00.0892892,115286,6
OrderSpecifications.OrderByIdAtMostOne (correctness),Passed,00:00:00.0891115,190480,6
BasketLines.FirstMissingProduct (well-formedness),Passed,00:00:00.0867290,229738,6
StableSort.SortedBy (well-formedness),Passed,00:00:00.0863684,36827,6
SpecificationsEvaluator.CreateQueryFilters (correctness),Passed,00:00:00.0850683,95011,6
PaymentServices.PaymentServices.Valid (well-formedness),Passed,00:00:00.0849148,140924,6
UnitOfWork.UnitOfWork.GetOrderRepository (correctness),Passed,00:00:00.0848026,166708,6
CacheAttribute.CacheKeyOf (well-formedness),Passed,00:00:00.0847608,67631,6
ProductSpecifications.ProductListSpec (well-formedness),Passed,00:00:00.0843385,98023,6
ProductSpecifications.UnfilteredCountIsAll (correctness),Passed,00:00:00.0838016,171391,6
StableSort.SortByKeepsSorted (correctness),Passed,00:00:00.0831546,252655,6
OrderServices.OrderServices.Plan (well-formedness),Passed,00:00:00.0827835,168812,6
OrderSpecifications.OrdersOfUserSpec (well-formedness),Passed,00:00:00.0816097,74827,6
Store.FindByKey (well-formedness),Passed,00:00:00.0814634,43870,6
Redis.RedisDatabase.StringGet (well-formedness),Passed,00:00:00.0801677,32912,6
OrderSpecifications.OrdersOfUserResult (well-formedness),Passed,00:00:00.0797462,121598,6
Store.StoreContext._ctor (correctness),Passed,00:00:00.0777869,191423,6
UnitOfWork.UnitOfWork.GetProductRepository (correctness),Passed,00:00:00.0749312,176236,6
ProductSpecifications.CountMatchesListing (correctness),Passed,00:00:00.0747830,123664,6
Store.ApplyChangeKeepsKeysUnique (correctness),Passed,00:00:00.0742436,141271,6
ProductSpecifications.NewCountProductSpecifications (correctness),Passed,00:00:00.0741872,98851,6
OrderServices.OrderServices.GetDeliveryMethods (correctness),Passed,00:00:00.0737235,152391,6
BasketServices.BasketServices.GetBasket (well-formedness),Passed,00:00:00.0729237,75042,6
ProductQuery.ClampPageSize (well-formedness),Passed,00:00:00.0728413,7067,6
ProductQuery.ClampPageSizeIdempotent (correctness),Passed,00:00:00.0727594,4981,6
Repository.GenericRepository.GetById (well-formedness),Passed,00:00:00.0725319,40287,6
UnitOfWork.UnitOfWork._ctor (correctness),Passed,00:00:00.0706183,88465,6
OrderSpecifications.NewOrderSpecificationById (correctness),Passed,00:00:00.0682402,119822,6
UnitOfWork.UnitOfWork.SaveChanges (correctness),Passed,00:00:00.0673961,169573,6
CacheRepository.CacheRepository.Set (well-formedness),Passed,00:00:00.0662472,52332,6
OrderServices.OrderItemsFor (well-formedness),Passed,00:00:00.0655612,52479,6
PaymentServices.RepeatedPaymentUpdates (correctness),Passed,00:00:00.0645289,175513,6
ProductSpecifications.ProductCountSpec (well-formedness),Passed,00:00:00.0639829,81245,6
UnitOfWork.UnitOfWork.GetDeliveryMethodRepository (correctness),Passed,00:00:00.0639607,168714,6
PaymentServices.PaymentAmount (well-formedness),Passed,00:00:00.0630945,81125,6
OrderSpecifications.OrderWithPaymentIntentResult (correctness),Passed,00:00:00.0624816,145763,6
Store.StoreContext.Applicable (well-formedness),Passed,00:00:00.0620509,76434,6
ProductSpecifications.SearchIgnoresCase (correctness),Passed,00:00:00.0603471,62333,6
CacheRepository.CacheRepository.Get (well-formedness),Passed,00:00:00.0596232,41370,6
Specifications.BaseSpecification.View (well-formedness),Passed,00:00:00.0591293,32418,6
SpecificationsEvaluator.CreateQueryFilters (well-formedness),Passed,00:00:00.0579565,77764,6
SpecificationsEvaluator.CreateQueryBothKeys (correctness),Passed,00:00:00.0578789,106849,6
SpecificationsEvaluator.CreateQueryPermutesFiltered (correctness),Passed,00:00:00.0576263,85604,6
OrderServices.OrderServices.GetAllOrders (well-formedness),Passed,00:00:00.0570869,166715,6
BasketServices.BasketServices.DeleteBasket (correctness),Passed,00:00:00.0568405,83359,6
Store.ApplySingleInsert (correctness),Passed,00:00:00.0566204,63186,6
PaymentServices.RepeatedPaymentUpdates (well-formedness),Passed,00:00:00.0550544,133875,6
OrderSpecifications.NewOrderSpecificationById (well-formedness),Passed,00:00:00.0543183,72544,6
Domain.GetTotalMonotone (well-formedness),Passed,00:00:00.0532836,39428,6
SpecificationsEvaluator.Where (well-formedness),Passed,00:00:00.0529558,120320,6
OrderServices.OrderServices.GetOrderById (well-formedness),Passed,00:00:00.0523422,148361,6
OrderServices.OrderServices.GetDeliveryMethods (well-formedness),Passed,00:00:00.0518944,133058,6
Domain.GetTotalMonotone (correctness),Passed,00:00:00.0518653,37098,6
Store.ApplyChangeKeepsKeysUnique (well-formedness),Passed,00:00:00.0508452,55556,6
PaymentServices.AmountIsWholeHundreds (well-formedness),Passed,00:00:00.0507848,43084,6
BasketRepository.BasketRepository.CreateUpdateBasket (correctness),Passed,00:00:00.0504877,114788,6
Ordering.KeyLeAntisymmetric (correctness),Passed,00:00:00.0491615,28261,6
CacheAttribute.CacheAttribute.OnActionExecution (well-formedness),Passed,00:00:00.0479793,132345,6
ProductSpecifications.NewProductSpecificationsById (correctness),Passed,00:00:00.0479043,136770,6
StableSort.SortByKeepsTies (correctness),Passed,00:00:00.0476614,136979,6
StableSort.SortBy (well-formedness),Passed,00:00:00.0476571,93105,6
CacheAttribute.SortedHeadsEqual (correctness),Passed,00:00:00.0474270,78627,6
OrderSpecifications.NewOrderSpecificationByEmail (correctness),Passed,00:00:00.0467717,111759,6
Repository.UnfilteredIsGetAll (correctness),Passed,00:00:00.0464868,88280,6
ProductSpecifications.ProductByIdSpec (well-formedness),Passed,00:00:00.0450056,106878,6
Repository.UnfilteredIsGetAll (well-formedness),Passed,00:00:00.0448006,84855,6
OrderServices.PlannedOrderTotal (well-formedness),Passed,00:00:00.0442838,124922,6
OrderServices.OrderServices.Valid (well-formedness),Passed,00:00:00.0431000,125802,6
Store.RemoveKeyIsSubsequence (correctness),Passed,00:00:00.0429797,148827,6
SpecificationsEvaluator.CreateQueryAscending (correctness),Passed,00:00:00.0427297,93604,6
SpecificationsEvaluator.CreateQueryDescending (correctness),Passed,00:00:00.0414885,91992,6
SpecificationsEvaluator.CreateQueryAscending (well-formedness),Passed,00:00:00.0409671,79740,6
BasketServices.BasketServices.CreateOrUpdateBasket (correctness),Passed,00:00:00.0405091,111078,6
BasketRepository.BasketRepository.CreateUpdateBasket (well-formedness),Passed,00:00:00.0404761,83016,6
BasketRepository.BasketRepository.DeleteBasket (correctness),Passed,00:00:00.0402563,73102,6
BasketRepository.BasketRepository.GetBasket (well-formedness),Passed,00:00:00.0398876,61159,6
SpecificationsEvaluator.CreateQueryBothKeys (well-formedness),Passed,00:00:00.0393751,87846,6
ProductSpecifications.NewCountProductSpecifications (well-formedness),Passed,00:00:00.0390817,92833,6
SpecificationsEvaluator.CreateQueryMembers (well-formedness),Passed,00:00:00.0389359,77815,6
SpecificationsEvaluator.CreateQueryUnfiltered (correctness),Passed,00:00:00.0385810,79219,6
StableSort.SortedGivesTiesOrdered (correctness),Passed,00:00:00.0380042,50608,6
SpecificationsEvaluator.CreateQueryMembers (correctness),Passed,00:00:00.0378541,86627,6
UnitOfWork.UnitOfWork.GetOrderRepository (well-formedness),Passed,00:00:00.0363734,83705,6
PaymentServices.PaymentServices.RefreshItemPrices (well-formedness),Passed,00:00:00.0362727,87978,6
StableSort.Insert (well-formedness),Passed,00:00:00.0362485,99933,6
OrderServices.OrderServices.ConvertItems (well-formedness),Passed,00:00:00.0358818,85850,6
UnitOfWork.UnitOfWork.GetDeliveryMethodRepository (well-formedness),Passed,00:00:00.0357343,83705,6
Store.AddedIsFound (well-formedness),Passed,00:00:00.0356453,57107,6
UnitOfWork.UnitOfWork.Valid (well-formedness),Passed,00:00:00.0351023,52772,6
SpecificationsEvaluator.CreateQueryShape (correctness),Passed,00:00:00.0348202,82424,6
ProductSpecifications.NewProductSpecifications (well-formedness),Passed,00:00:00.0332163,92283,6
UnitOfWork.UnitOfWork.GetProductRepository (well-formedness),Passed,00:00:00.0323723,83705,6
Redis.RedisDatabase.StringSet (correctness),Passed,00:00:00.0323044,68913,6
ProductSpecifications.NewProductSpecificationsById (well-formedness),Passed,00:00:00.0320875,88832,6
SpecificationsEvaluator.CreateQueryDescending (well-formedness),Passed,00:00:00.0319668,79658,6
SpecificationsEvaluator.SameCriteriaSameCount (correctness),Passed,00:00:00.0317490,82290,6
SpecificationsEvaluator.Ordered (well-formedness),Passed,00:00:00.0315212,69162,6
Store.AddedIsFound (correctness),Passed,00:00:00.0313615,73411,6
PaymentServices.AmountInCents (correctness),Passed,00:00:00.0308673,156613,6
OrderSpecifications.OrderWithPaymentIntentSpec (well-formedness),Passed,00:00:00.0305412,67772,6
Store.ApplyChange (well-formedness),Passed,00:00:00.0301789,66548,6
BasketServices.BasketServices.CreateOrUpdateBasket (well-formedness),Passed,00:00:00.0300035,83314,6
Store.ApplyAllKeepsKeysUnique (well-formedness),Passed,00:00:00.0299259,58508,6
OrderSpecifications.NewOrderWithPaymentIntentIdSpecification (correctness),Passed,00:00:00.0296423,67377,6
BasketRepository.BasketRepository.DeleteBasket (well-formedness),Passed,00:00:00.0295226,55012,6
Redis.RedisDatabase.StringSet (well-formedness),Passed,00:00:00.0294735,44551,6
OrderSpecifications.NewOrderSpecificationByEmail (well-formedness),Passed,00:00:00.0294536,66568,6
Redis.RedisDatabase.KeyDelete (correctness),Passed,00:00:00.0282648,54937,6
CacheAttribute.CacheKeyIgnoresArrivalOrder (correctness),Passed,00:00:00.0281968,76215,6
Store.StoreContext._ctor (well-formedness),Passed,00:00:00.0280493,63935,6
Store.ApplyAllKeepsKeysUnique (correctness),Passed,00:00:00.0274336,72326,6
Specifications.BaseSpecification._ctor (correctness),Passed,00:00:00.0271220,36735,6
BasketServices.BasketServices.DeleteBasket (well-formedness),Passed,00:00:00.0269102,75125,6
StableSort.SortBySorted (correctness),Passed,00:00:00.0269097,58034,6
Store.StoreContext.Valid (well-formedness),Passed,00:00:00.0267783,58650,6
BasketRepository.BasketRepository._ctor (correctness),Passed,00:00:00.0261767,37522,6
Store.RemoveKey (well-formedness),Passed,00:00:00.0256611,54813,6
SpecificationsEvaluator.WhereIsSubsequence (correctness),Passed,00:00:00.0254946,68051,6
CacheAttribute.SortedQuery (well-formedness),Passed,00:00:00.0254842,57796,6
CacheRepository.CacheRepository.Set (correctness),Passed,00:00:00.0251741,56581,6
Redis.RedisDatabase.KeyDelete (well-formedness),Passed,00:00:00.0249447,35999,6
Store.ApplyAll (well-formedness),Passed,00:00:00.0240930,58164,6
BasketItemValidation.ValidBasketItemBounds (correctness),Passed,00:00:00.0237911,43867,6
UnitOfWork.UnitOfWork.DomainTypesOnly (well-formedness),Passed,00:00:00.0235531,64966,6
CacheAttribute.SegmentsAppend (correctness),Passed,00:00:00.0234709,89880,6
OrderServices.SubTotalOfBasket (correctness),Passed,00:00:00.0232928,62192,6
PaymentServices.RefreshPricesIdempotent (well-formedness),Passed,00:00:00.0230780,66350,6
OrderSpecifications.NewOrderWithPaymentIntentIdSpecification (well-formedness),Passed,00:00:00.0227177,60679,6
SpecificationsEvaluator.Filtered (well-formedness),Passed,00:00:00.0227139,62210,6
CacheAttribute.SortedTail (correctness),Passed,00:00:00.0225659,54433,6
PaymentServices.AmountInCents (well-formedness),Passed,00:00:00.0224344,44910,6
OrderServices.OrderServices.Commits (well-formedness),Passed,00:00:00.0223921,47546,6
PaymentServices.RefreshPricesIdempotent (correctness),Passed,00:00:00.0223397,59361,6
StableSort.TiesOrderedBy (well-formedness),Passed,00:00:00.0219806,38652,6
BasketItemValidation.ValidationErrors (well-formedness),Passed,00:00:00.0218683,48296,6
StableSort.BeforeTotal (correctness),Passed,00:00:00.0213859,32790,6
ProductSpecifications.ProductCriteria (well-formedness),Passed,00:00:00.0213558,51401,6
ProductQuery.ProductQueryParam._ctor (correctness),Passed,00:00:00.0213102,24487,6
Store.DbSet._ctor (correctness),Passed,00:00:00.0209263,40369,6
CacheAttribute.SortedHeadLeast (correctness),Passed,00:00:00.0208966,55863,6
CacheAttribute.SortedHeadsEqual (well-formedness),Passed,00:00:00.0205662,54262,6
PaymentServices.AmountIsWholeHundreds (correctness),Passed,00:00:00.0203378,65679,6
Ordering.KeyLeReflexive (correctness),Passed,00:00:00.0197900,25715,6
CacheAttribute.DistinctKeysTail (correctness),Passed,00:00:00.0194518,59517,6
ProductSpecifications.ToLowerIdempotent (correctness),Passed,00:00:00.0194108,28347,6
ProductSpecifications.NoFilterMatchesAll (correctness),Passed,00:00:00.0193660,45786,6
SpecificationsEvaluator.WhereNone (correctness),Passed,00:00:00.0192888,41738,6
Repository.GenericRepository.Update (correctness),Passed,00:00:00.0183468,23482,6
ProductSpecifications.NoFilterMatchesAll (well-formedness),Passed,00:00:00.0182077,43571,6
Store.ReplaceKey (well-formedness),Passed,00:00:00.0177449,39616,6
BasketItemValidation.ValidationIgnoresIdentity (correctness),Passed,00:00:00.0174622,37562,6
SpecificationsEvaluator.IncludeAllKeepsRows (correctness),Passed,00:00:00.0173938,61266,6
ProductSpecifications.ToLower (well-formedness),Passed,00:00:00.0172996,21307,6
CacheAttribute.SortedHeadLeast (well-formedness),Passed,00:00:00.0170550,43719,6
Repository.GenericRepository.Delete (well-formedness),Passed,00:00:00.0167488,22729,6
Store.DbSet.Stage (correctness),Passed,00:00:00.0165669,21629,6
CacheAttribute.SortedTail (well-formedness),Passed,00:00:00.0165657,41489,6
Domain.GetTotal (well-formedness),Passed,00:00:00.0164434,34726,6
PaymentServices.Repriced (well-formedness),Passed,00:00:00.0162100,39615,6
Repository.GenericRepository.Add (well-formedness),Passed,00:00:00.0160368,22729,6
Redis.RedisDatabase._ctor (correctness),Passed,00:00:00.0160046,21743,6
OrderServices.SubTotal (well-formedness),Passed,00:00:00.0159687,15488,6
ProductQuery.ProductQueryParam.SetPageSize (well-formedness),Passed,00:00:00.0159018,7982,6
Repository.GenericRepository.Add (correctness),Passed,00:00:00.0156060,23482,6
Repository.GenericRepository.GetAll (well-formedness),Passed,00:00:00.0154346,13333,6
Repository.GenericRepository.Delete (correctness),Passed,00:00:00.0154129,23482,6
Ordering.StrLeTransitive (correctness),Passed,00:00:00.0149663,23915,6
PaymentServices.DivBounds (correctness),Passed,00:00:00.0149585,20481,6
Specifications.BaseSpecification.AddOrderBy (well-formedness),Passed,00:00:00.0147439,22754,6
Ordering.StrLeAntisymmetric (correctness),Passed,00:00:00.0143323,31970,6
Domain.NewOrder (well-formedness),Passed,00:00:00.0141119,27198,6
PictureUrl.ResolvePictureUrl (well-formedness),Passed,00:00:00.0140742,24248,6
Repository.GenericRepository.Update (well-formedness),Passed,00:00:00.0140259,22729,6
Ordering.KeyLeTransitive (correctness),Passed,00:00:00.0136006,33188,6
PictureUrl.OrderItemPictureUrl (well-formedness),Passed,00:00:00.0135775,34495,6
OrderServices.OrderServices.NothingStaged (well-formedness),Passed,00:00:00.0134872,30374,6
PaymentServices.ItemsCharge (well-formedness),Passed,00:00:00.0134539,18826,6
Ordering.KeyLeTotal (correctness),Passed,00:00:00.0134419,28383,6
Ordering.StrLe (well-formedness),Passed,00:00:00.0127568,16869,6
PaymentServices.TruncDiv (well-formedness),Passed,00:00:00.0127037,21844,6
Ordering.StrLeReflexive (correctness),Passed,00:00:00.0124974,14385,6
Specifications.BaseSpecification.AddOrderByDesc (correctness),Passed,00:00:00.0124912,24203,6
BasketLines.BasketTotal (well-formedness),Passed,00:00:00.0122607,18753,6
Ordering.StrLeTotal (correctness),Passed,00:00:00.0122264,19710,6
Specifications.BaseSpecification.AddOrderByDesc (well-formedness),Passed,00:00:00.0121472,22754,6
PaymentServices.Wrap64 (well-formedness),Passed,00:00:00.0115894,51304,6
Store.StoreContext.PendingCount (well-formedness),Passed,00:00:00.0114924,22291,6
Specifications.BaseSpecification.AddInclude (correctness),Passed,00:00:00.0114805,16390,6
ProductQuery.ProductQueryParam.SetPageSize (correctness),Passed,00:00:00.0108743,10855,6
PaymentServices.ItemsChargeIsHundredfoldTotal (correctness),Passed,00:00:00.0108233,24875,6
Repository.GenericRepository._ctor (correctness),Passed,00:00:00.0106983,10459,6
Specifications.BaseSpecification.AddInclude (well-formedness),Passed,00:00:00.0106898,15456,6
Specifications.BaseSpecification.AddOrderBy (correctness),Passed,00:00:00.0104917,24203,6
SpecificationsEvaluator.IncludeAll (well-formedness),Passed,00:00:00.0104914,23707,6
Store.DbSet.Stage (well-formedness),Passed,00:00:00.0104646,18569,6
ProductSpecifications.Contains (well-formedness),Passed,00:00:00.0101204,14152,6
CacheAttribute.CacheAttribute._ctor (correctness),Passed,00:00:00.0098430,24593,6
SpecificationsEvaluator.IsSubsequence (well-formedness),Passed,00:00:00.0098113,16256,6
Store.DbSet.Valid (well-formedness),Passed,00:00:00.0094593,23809,6
Domain.UniqueKeys (well-formedness),Passed,00:00:00.0093099,16857,6
PaymentServices.DivBounds (well-formedness),Passed,00:00:00.0090550,4873,6
CacheAttribute.Segments (well-formedness),Passed,00:00:00.0087815,20606,6
CacheAttribute.DistinctKeysTail (well-formedness),Passed,00:00:00.0082158,21809,6
PictureUrl.BaseOf (well-formedness),Passed,00:00:00.0078085,8081,6
BasketServices.BasketServices._ctor (correctness),Passed,00:00:00.0070657,6776,6
OrderServices.OrderServices._ctor (correctness),Passed,00:00:00.0065890,8779,6
PaymentServices.PaymentServices._ctor (correctness),Passed,00:00:00.0056618,8778,6
CacheRepository.CacheRepository._ctor (correctness),Passed,00:00:00.0055596,6775,6
ProductSpecifications.LowerChar (well-formedness),Passed,00:00:00.0048440,6534,6
