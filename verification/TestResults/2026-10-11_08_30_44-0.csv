TestResult.DisplayName,TestResult.Outcome,TestResult.Duration,TestResult.ResourceCount,RandomSeed
OrderServices.OrderServices.CreateOrder (correctness),Passed,00:00:00.9215627,2112919,7
PaymentServices.PaymentServices.CreateOrUpdatePaymentIntent (correctness),Passed,00:00:00.5086127,1193473,7
Repository.SpecificationByKeyIsGetById (correctness),Passed,00:00:00.3006660,677208,7
OrderSpecifications.OrdersOfUserResult (correctness),Passed,00:00:00.2672177,557034,7
OrderServices.OrderServices.GetAllOrders (correctness),Passed,00:00:00.2577042,548667,7
StableSort.InsertKeepsTies (correctness),Passed,00:00:00.2390846,700176,7
CacheAttribute.SortedDictionaryUnique (correctness),Passed,00:00:00.2286817,732142,7
OrderServices.OrderServices.ConvertItems (correctness),Passed,00:00:00.2106079,669642,7
Store.StoreContext.SaveChanges (correctness),Passed,00:00:00.2071663,470237,7
OrderServices.OrderServices.CreateOrder (well-formedness),Passed,00:00:00.1880014,303142,7
OrderServices.OrderServices.GetOrderById (correctness),Passed,00:00:00.1848385,445253,7
CacheAttribute.CreateCacheKey (correctness),Passed,00:00:00.1791329,512927,7
PaymentServices.PaymentServices.RefreshItemPrices (correctness),Passed,00:00:00.1788052,342651,7
PaymentServices.PlanPayment (well-formedness),Passed,00:00:00.1776636,307027,7
PaymentServices.PaymentServices.CreateOrUpdatePaymentIntent (well-formedness),Passed,00:00:00.1544990,277408,7
OrderServices.PlanOrder (well-formedness),Passed,00:00:00.1419471,305481,7
CacheAttribute.CacheAttribute.OnActionExecution (correctness),Passed,00:00:00.1415778,294859,7
UnitOfWork.UnitOfWork.GetRepository (correctness),Passed,00:00:00.1303823,373507,7
StableSort.InsertSorted (correctness),Passed,00:00:00.1131498,207560,7
BasketLines.FirstMissingProduct (well-formedness),Passed,00:00:00.1105558,315555,7
PaymentServices.RefreshPrices (well-formedness),Passed,00:00:00.1098166,155842,7
ProductSpecifications.NewProductSpecifications (correctness),Passed,00:00:00.1087186,213776,7
OrderServices.PlannedOrderTotal (correctness),Passed,00:00:00.1085536,201360,7
Store.StoreContext._ctor (correctness),Passed,00:00:00.1009404,208807,7
StableSort.SortedBy (well-formedness),Passed,00:00:00.0991923,36825,7
ProductSpecifications.UnfilteredCountIsAll (correctness),Passed,00:00:00.0989804,167846,7
Repository.GenericRepository.GetAllWithSpecifications (well-formedness),Passed,00:00:00.0981390,159235,7
Repository.GenericRepository.GetByIdWithSpecifications (well-formedness),Passed,00:00:00.0978978,152931,7
SpecificationsEvaluator.CreateQueryIgnoresPagination (correctness),Passed,00:00:00.0971809,219920,7
Repository.SpecificationByKeyIsGetById (well-formedness),Passed,00:00:00.0962924,103274,7
StableSort.BeforeTransitive (correctness),Passed,00:00:00.0941255,42458,7
SpecificationsEvaluator.WhereUniqueKey (correctness),Passed,00:00:00.0933545,117259,7
BasketServices.BasketServices.GetBasket (well-formedness),Passed,00:00:00.0918372,75135,7
OrderSpecifications.OrderByIdSpec (well-formedness),Passed,00:00:00.0914780,80806,7
ProductSpecifications.ProductListSpec (well-formedness),Passed,00:00:00.0913824,98448,7
UnitOfWork.UnitOfWork.SaveChanges (well-formedness),Passed,00:00:00.0884902,153816,7
PaymentServices.PaymentServices.Plan (well-formedness),Passed,00:00:00.0873570,164844,7
OrderSpecifications.OrdersOfUserResult (well-formedness),Passed,00:00:00.0845032,121956,7
ProductSpecifications.CountMatchesListing (correctness),Passed,00:00:00.0844072,123712,7
OrderSpecifications.OrdersOfUserSpec (well-formedness),Passed,00:00:00.0820748,75077,7
UnitOfWork.UnitOfWork.GetRepository (well-formedness),Passed,00:00:00.0819302,115169,7
OrderServices.OrderServices.Plan (well-formedness),Passed,00:00:00.0816864,168814,7
UnitOfWork.UnitOfWork.GetOrderRepository (correctness),Passed,00:00:00.0813044,164803,7
PaymentServices.RepeatedPaymentUpdates (correctness),Passed,00:00:00.0811912,167272,7
ProductSpecifications.NewCountProductSpecifications (correctness),Passed,00:00:00.0811331,98845,7
UnitOfWork.UnitOfWork.GetProductRepository (correctness),Passed,00:00:00.0805955,176038,7
PaymentServices.PaymentServices.Valid (well-formedness),Passed,00:00:00.0782807,140933,7
OrderSpecifications.OrderByIdAtMostOne (correctness),Passed,00:00:00.0780167,191590,7
PaymentServices.RepeatedPaymentUpdates (well-formedness),Passed,00:00:00.0778425,133959,7
Store.RemoveKeyIsSubsequence (correctness),Passed,00:00:00.0767684,245624,7
Repository.GenericRepository.GetById (well-formedness),Passed,00:00:00.0764870,40279,7
ProductQuery.ClampPageSizeIdempotent (correctness),Passed,00:00:00.0756814,4981,7
ProductQuery.ClampPageSize (well-formedness),Passed,00:00:00.0756691,7067,7
Store.FindByKey (well-formedness),Passed,00:00:00.0747571,43950,7
Store.ApplyChangeKeepsKeysUnique (correctness),Passed,00:00:00.0707441,141450,7
UnitOfWork.UnitOfWork._ctor (correctness),Passed,00:00:00.0705511,88449,7
Redis.RedisDatabase.StringGet (well-formedness),Passed,00:00:00.0700298,32910,7
OrderServices.OrderServices.GetDeliveryMethods (correctness),Passed,00:00:00.0699812,157842,7
UnitOfWork.UnitOfWork.SaveChanges (correctness),Passed,00:00:00.0692039,169177,7
StableSort.SortByKeepsSorted (correctness),Passed,00:00:00.0688650,185273,7
OrderSpecifications.NewOrderSpecificationById (correctness),Passed,00:00:00.0687295,106682,7
SpecificationsEvaluator.CreateQueryFilters (correctness),Passed,00:00:00.0682690,94875,7
CacheRepository.CacheRepository.Set (well-formedness),Passed,00:00:00.0680710,52288,7
Store.ApplySingleInsert (correctness),Passed,00:00:00.0671829,63188,7
Domain.GetTotalMonotone (correctness),Passed,00:00:00.0660498,37632,7
SpecificationsEvaluator.WhereNone (correctness),Passed,00:00:00.0652001,41767,7
UnitOfWork.UnitOfWork.GetDeliveryMethodRepository (correctness),Passed,00:00:00.0640941,168646,7
Repository.GenericRepository.Add (well-formedness),Passed,00:00:00.0636406,22728,7
OrderServices.OrderServices.GetAllOrders (well-formedness),Passed,00:00:00.0634891,166794,7
SpecificationsEvaluator.CreateQueryAscending (well-formedness),Passed,00:00:00.0634793,79681,7
CacheRepository.CacheRepository.Get (well-formedness),Passed,00:00:00.0632467,41360,7
BasketRepository.BasketRepository.DeleteBasket (well-formedness),Passed,00:00:00.0631940,55016,7
Specifications.BaseSpecification.View (well-formedness),Passed,00:00:00.0630463,32421,7
ProductSpecifications.NewProductSpecificationsById (well-formedness),Passed,00:00:00.0614421,88820,7
Store.StoreContext.SaveChanges (well-formedness),Passed,00:00:00.0612207,144071,7
ProductSpecifications.NewProductSpecificationsById (correctness),Passed,00:00:00.0611615,125898,7
OrderSpecifications.OrderWithPaymentIntentResult (correctness),Passed,00:00:00.0583307,144982,7
CacheAttribute.CacheAttribute.OnActionExecution (well-formedness),Passed,00:00:00.0582494,132131,7
SpecificationsEvaluator.CreateQueryFilters (well-formedness),Passed,00:00:00.0579557,77804,7
SpecificationsEvaluator.CreateQueryDescending (well-formedness),Passed,00:00:00.0571393,79508,7
Store.AddedIsFound (correctness),Passed,00:00:00.0568220,75761,7
SpecificationsEvaluator.CreateQueryPermutesFiltered (correctness),Passed,00:00:00.0565514,85824,7
CacheAttribute.SortedHeadsEqual (correctness),Passed,00:00:00.0559505,78712,7
SpecificationsEvaluator.CreateQueryBothKeys (correctness),Passed,00:00:00.0555572,106883,7
OrderServices.OrderServices.GetOrderById (well-formedness),Passed,00:00:00.0536983,148354,7
ProductSpecifications.SearchIgnoresCase (correctness),Passed,00:00:00.0519785,62320,7
BasketRepository.BasketRepository.CreateUpdateBasket (correctness),Passed,00:00:00.0518877,115062,7
OrderServices.OrderServices.GetDeliveryMethods (well-formedness),Passed,00:00:00.0516676,132481,7
StableSort.Insert (well-formedness),Passed,00:00:00.0515155,132556,7
Store.StoreContext.Applicable (well-formedness),Passed,00:00:00.0514373,76449,7
BasketServices.BasketServices.CreateOrUpdateBasket (well-formedness),Passed,00:00:00.0509543,83329,7
Ordering.KeyLeTotal (correctness),Passed,00:00:00.0506230,28364,7
ProductSpecifications.NewCountProductSpecifications (well-formedness),Passed,00:00:00.0504533,92842,7
PaymentServices.PaymentAmount (well-formedness),Passed,00:00:00.0502168,78642,7
SpecificationsEvaluator.CreateQueryShape (correctness),Passed,00:00:00.0501371,82392,7
BasketRepository.BasketRepository.CreateUpdateBasket (well-formedness),Passed,00:00:00.0498474,83018,7
SpecificationsEvaluator.Where (well-formedness),Passed,00:00:00.0496596,131391,7
StableSort.SortByKeepsTies (correctness),Passed,00:00:00.0492787,138694,7
Repository.UnfilteredIsGetAll (correctness),Passed,00:00:00.0483877,88263,7
BasketServices.BasketServices.CreateOrUpdateBasket (correctness),Passed,00:00:00.0479955,120806,7
OrderServices.OrderServices.Valid (well-formedness),Passed,00:00:00.0474787,125711,7
Ordering.KeyLeAntisymmetric (correctness),Passed,00:00:00.0472259,28262,7
UnitOfWork.UnitOfWork.GetDeliveryMethodRepository (well-formedness),Passed,00:00:00.0468943,83679,7
StableSort.SortBy (well-formedness),Passed,00:00:00.0468896,92346,7
OrderServices.PlannedOrderTotal (well-formedness),Passed,00:00:00.0463528,124905,7
Repository.UnfilteredIsGetAll (well-formedness),Passed,00:00:00.0462532,84836,7
Store.ApplyAllKeepsKeysUnique (correctness),Passed,00:00:00.0445598,71973,7
SpecificationsEvaluator.CreateQueryAscending (correctness),Passed,00:00:00.0437062,93659,7
ProductSpecifications.ProductByIdSpec (well-formedness),Passed,00:00:00.0431176,106234,7
StableSort.SortedGivesTiesOrdered (correctness),Passed,00:00:00.0424780,50375,7
SpecificationsEvaluator.CreateQueryBothKeys (well-formedness),Passed,00:00:00.0418715,87790,7
SpecificationsEvaluator.CreateQueryMembers (correctness),Passed,00:00:00.0402148,84799,7
OrderServices.OrderServices.ConvertItems (well-formedness),Passed,00:00:00.0402063,85851,7
SpecificationsEvaluator.CreateQueryMembers (well-formedness),Passed,00:00:00.0393001,77265,7
Store.AddedIsFound (well-formedness),Passed,00:00:00.0387745,57110,7
UnitOfWork.UnitOfWork.GetOrderRepository (well-formedness),Passed,00:00:00.0387039,83679,7
SpecificationsEvaluator.Ordered (well-formedness),Passed,00:00:00.0386038,69142,7
BasketServices.BasketServices.DeleteBasket (well-formedness),Passed,00:00:00.0384493,75122,7
OrderSpecifications.NewOrderSpecificationByEmail (correctness),Passed,00:00:00.0383912,101863,7
BasketRepository.BasketRepository.DeleteBasket (correctness),Passed,00:00:00.0379321,74588,7
Store.StoreContext.Valid (well-formedness),Passed,00:00:00.0377110,58649,7
SpecificationsEvaluator.CreateQueryDescending (correctness),Passed,00:00:00.0361640,91996,7
BasketServices.BasketServices.DeleteBasket (correctness),Passed,00:00:00.0359942,83338,7
ProductSpecifications.NewProductSpecifications (well-formedness),Passed,00:00:00.0358077,92309,7
SpecificationsEvaluator.CreateQueryUnfiltered (correctness),Passed,00:00:00.0352691,79234,7
PaymentServices.PaymentServices.RefreshItemPrices (well-formedness),Passed,00:00:00.0347066,87953,7
OrderSpecifications.NewOrderSpecificationById (well-formedness),Passed,00:00:00.0338744,72531,7
SpecificationsEvaluator.SameCriteriaSameCount (correctness),Passed,00:00:00.0326033,82366,7
StableSort.SortBySorted (correctness),Passed,00:00:00.0325187,58325,7
OrderSpecifications.NewOrderSpecificationByEmail (well-formedness),Passed,00:00:00.0322564,66554,7
SpecificationsEvaluator.Filtered (well-formedness),Passed,00:00:00.0321323,62040,7
ProductSpecifications.ProductCountSpec (well-formedness),Passed,00:00:00.0316887,81914,7
UnitOfWork.UnitOfWork.GetProductRepository (well-formedness),Passed,00:00:00.0315112,83679,7
Store.ApplyChange (well-formedness),Passed,00:00:00.0313913,66550,7
BasketRepository.BasketRepository.GetBasket (well-formedness),Passed,00:00:00.0303996,61168,7
CacheAttribute.CacheKeyOf (well-formedness),Passed,00:00:00.0303516,67562,7
ProductSpecifications.NoFilterMatchesAll (well-formedness),Passed,00:00:00.0298652,43550,7
CacheAttribute.CacheKeyIgnoresArrivalOrder (correctness),Passed,00:00:00.0297273,76207,7
StableSort.TiesOrderedBy (well-formedness),Passed,00:00:00.0294614,38650,7
OrderSpecifications.NewOrderWithPaymentIntentIdSpecification (correctness),Passed,00:00:00.0291650,67372,7
PaymentServices.AmountInCents (correctness),Passed,00:00:00.0290169,149542,7
OrderSpecifications.OrderWithPaymentIntentSpec (well-formedness),Passed,00:00:00.0288321,68145,7
Redis.RedisDatabase.StringSet (correctness),Passed,00:00:00.0286738,68991,7
Store.StoreContext._ctor (well-formedness),Passed,00:00:00.0286512,63937,7
OrderSpecifications.NewOrderWithPaymentIntentIdSpecification (well-formedness),Passed,00:00:00.0277169,60687,7
UnitOfWork.UnitOfWork.Valid (well-formedness),Passed,00:00:00.0267684,52775,7
SpecificationsEvaluator.WhereIsSubsequence (correctness),Passed,00:00:00.0267662,68096,7
OrderServices.OrderItemsFor (well-formedness),Passed,00:00:00.0266814,52457,7
UnitOfWork.UnitOfWork.DomainTypesOnly (well-formedness),Passed,00:00:00.0266369,64933,7
CacheAttribute.SortedHeadLeast (correctness),Passed,00:00:00.0265229,55717,7
PaymentServices.RefreshPricesIdempotent (well-formedness),Passed,00:00:00.0260874,65420,7
CacheAttribute.SegmentsAppend (correctness),Passed,00:00:00.0259380,90899,7
PaymentServices.Repriced (well-formedness),Passed,00:00:00.0254086,39611,7
CacheAttribute.SortedTail (well-formedness),Passed,00:00:00.0252166,41492,7
Redis.RedisDatabase.StringSet (well-formedness),Passed,00:00:00.0250025,44469,7
Store.ApplyAll (well-formedness),Passed,00:00:00.0246911,58155,7
PaymentServices.AmountIsWholeHundreds (well-formedness),Passed,00:00:00.0246158,43077,7
Redis.RedisDatabase.KeyDelete (correctness),Passed,00:00:00.0239533,54944,7
CacheAttribute.SortedQuery (well-formedness),Passed,00:00:00.0239089,57773,7
Store.ApplyAllKeepsKeysUnique (well-formedness),Passed,00:00:00.0237724,58406,7
PaymentServices.RefreshPricesIdempotent (correctness),Passed,00:00:00.0235516,59482,7
CacheRepository.CacheRepository.Set (correctness),Passed,00:00:00.0234995,56523,7
OrderServices.SubTotalOfBasket (correctness),Passed,00:00:00.0234239,62797,7
SpecificationsEvaluator.IncludeAllKeepsRows (correctness),Passed,00:00:00.0233448,60031,7
OrderServices.OrderServices.Commits (well-formedness),Passed,00:00:00.0232392,47541,7
PaymentServices.AmountIsWholeHundreds (correctness),Passed,00:00:00.0232087,58949,7
ProductSpecifications.NoFilterMatchesAll (correctness),Passed,00:00:00.0229188,45761,7
Store.ApplyChangeKeepsKeysUnique (well-formedness),Passed,00:00:00.0227044,55542,7
UnitOfWork.UnitOfWork.Serves (well-formedness),Passed,00:00:00.0224142,42493,7
CacheAttribute.SortedTail (correctness),Passed,00:00:00.0222524,54414,7
Store.ReplaceKey (well-formedness),Passed,00:00:00.0221367,39051,7
Domain.GetTotal (well-formedness),Passed,00:00:00.0221133,34550,7
CacheAttribute.SortedHeadLeast (well-formedness),Passed,00:00:00.0215022,43714,7
ProductSpecifications.ProductCriteria (well-formedness),Passed,00:00:00.0211862,51421,7
Store.DbSet._ctor (correctness),Passed,00:00:00.0211740,39776,7
CacheAttribute.SortedHeadsEqual (well-formedness),Passed,00:00:00.0204369,54266,7
Domain.NewOrder (well-formedness),Passed,00:00:00.0204043,27198,7
Store.RemoveKey (well-formedness),Passed,00:00:00.0202597,54709,7
CacheAttribute.DistinctKeysTail (correctness),Passed,00:00:00.0198081,59086,7
Redis.RedisDatabase.KeyDelete (well-formedness),Passed,00:00:00.0195407,35990,7
ProductSpecifications.ToLowerIdempotent (correctness),Passed,00:00:00.0193370,28344,7
StableSort.BeforeTotal (correctness),Passed,00:00:00.0184039,32784,7
Domain.GetTotalMonotone (well-formedness),Passed,00:00:00.0183486,39426,7
Redis.RedisDatabase._ctor (correctness),Passed,00:00:00.0183353,21751,7
BasketRepository.BasketRepository._ctor (correctness),Passed,00:00:00.0183337,37519,7
Repository.GenericRepository.Delete (correctness),Passed,00:00:00.0176436,23481,7
OrderServices.SubTotal (well-formedness),Passed,00:00:00.0175379,15489,7
BasketItemValidation.ValidBasketItemBounds (correctness),Passed,00:00:00.0171811,44170,7
CacheAttribute.Segments (well-formedness),Passed,00:00:00.0170986,20578,7
Ordering.KeyLeTransitive (correctness),Passed,00:00:00.0170191,33248,7
Specifications.BaseSpecification._ctor (correctness),Passed,00:00:00.0169589,36748,7
BasketItemValidation.ValidationErrors (well-formedness),Passed,00:00:00.0169412,46796,7
ProductQuery.ProductQueryParam._ctor (correctness),Passed,00:00:00.0165552,24488,7
Domain.UniqueKeys (well-formedness),Passed,00:00:00.0163940,16857,7
PaymentServices.AmountInCents (well-formedness),Passed,00:00:00.0163331,44929,7
Repository.GenericRepository.Add (correctness),Passed,00:00:00.0159947,23481,7
PaymentServices.ItemsChargeIsHundredfoldTotal (correctness),Passed,00:00:00.0158622,24917,7
Store.DbSet.Stage (correctness),Passed,00:00:00.0158504,21613,7
Ordering.StrLeAntisymmetric (correctness),Passed,00:00:00.0156844,31465,7
OrderServices.OrderServices.NothingStaged (well-formedness),Passed,00:00:00.0155031,30374,7
Ordering.StrLeTransitive (correctness),Passed,00:00:00.0151994,23928,7
Repository.GenericRepository.Update (correctness),Passed,00:00:00.0150106,23481,7
BasketItemValidation.ValidationIgnoresIdentity (correctness),Passed,00:00:00.0145865,39996,7
ProductQuery.ProductQueryParam.SetPageSize (well-formedness),Passed,00:00:00.0145495,7981,7
Repository.GenericRepository.Update (well-formedness),Passed,00:00:00.0141188,22728,7
PictureUrl.OrderItemPictureUrl (well-formedness),Passed,00:00:00.0135905,34450,7
Ordering.KeyLeReflexive (correctness),Passed,00:00:00.0129292,25716,7
Ordering.StrLeTotal (correctness),Passed,00:00:00.0129147,19733,7
PaymentServices.ItemsCharge (well-formedness),Passed,00:00:00.0127869,18915,7
ProductSpecifications.ToLower (well-formedness),Passed,00:00:00.0127447,23475,7
Specifications.BaseSpecification.AddOrderByDesc (correctness),Passed,00:00:00.0126134,24200,7
PaymentServices.Wrap64 (well-formedness),Passed,00:00:00.0124252,51418,7
PaymentServices.TruncDiv (well-formedness),Passed,00:00:00.0122810,21898,7
CacheAttribute.CacheAttribute._ctor (correctness),Passed,00:00:00.0120501,24592,7
Repository.GenericRepository.Delete (well-formedness),Passed,00:00:00.0116249,22728,7
Specifications.BaseSpecification.AddOrderBy (well-formedness),Passed,00:00:00.0108686,22756,7
BasketLines.BasketTotal (well-formedness),Passed,00:00:00.0107853,18784,7
Store.StoreContext.PendingCount (well-formedness),Passed,00:00:00.0105528,22291,7
SpecificationsEvaluator.IsSubsequence (well-formedness),Passed,00:00:00.0104607,16224,7
Specifications.BaseSpecification.AddOrderBy (correctness),Passed,00:00:00.0104384,24200,7
PictureUrl.ResolvePictureUrl (well-formedness),Passed,00:00:00.0102585,24267,7
Store.DbSet.Valid (well-formedness),Passed,00:00:00.0101784,23807,7
Ordering.StrLeReflexive (correctness),Passed,00:00:00.0101272,14381,7
Store.DbSet.Stage (well-formedness),Passed,00:00:00.0100582,18583,7
ProductSpecifications.LowerChar (well-formedness),Passed,00:00:00.0100334,6523,7
SpecificationsEvaluator.IncludeAll (well-formedness),Passed,00:00:00.0098992,23836,7
Specifications.BaseSpecification.AddOrderByDesc (well-formedness),Passed,00:00:00.0097708,22756,7
Specifications.BaseSpecification.AddInclude (correctness),Passed,00:00:00.0095835,16407,7
Ordering.StrLe (well-formedness),Passed,00:00:00.0094299,16684,7
CacheAttribute.DistinctKeysTail (well-formedness),Passed,00:00:00.0092776,21810,7
Repository.GenericRepository._ctor (correctness),Passed,00:00:00.0089640,10458,7
Repository.GenericRepository.GetAll (well-formedness),Passed,00:00:00.0084797,13334,7
CacheRepository.CacheRepository._ctor (correctness),Passed,00:00:00.0081006,6774,7
PaymentServices.DivBounds (correctness),Passed,00:00:00.0076503,32975,7
ProductQuery.ProductQueryParam.SetPageSize (correctness),Passed,00:00:00.0075923,10857,7
BasketServices.BasketServices._ctor (correctness),Passed,00:00:00.0075172,6776,7
Specifications.BaseSpecification.AddInclude (well-formedness),Passed,00:00:00.0072414,15462,7
ProductSpecifications.Contains (well-formedness),Passed,00:00:00.0071022,14166,7
OrderServices.OrderServices._ctor (correctness),Passed,00:00:00.0070513,8775,7
PaymentServices.PaymentServices._ctor (correctness),Passed,00:00:00.0055573,8777,7
PictureUrl.BaseOf (well-formedness),Passed,00:00:00.0054757,8078,7
PaymentServices.DivBounds (well-formedness),Passed,00:00:00.0052713,4873,7
