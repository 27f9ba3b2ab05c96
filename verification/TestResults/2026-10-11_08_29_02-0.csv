TestResult.DisplayName,TestResult.Outcome,TestResult.Duration,TestResult.ResourceCount,RandomSeed
OrderServices.OrderServices.CreateOrder (correctness),Passed,00:00:01.0788635,2165712,0
PaymentServices.PaymentServices.CreateOrUpdatePaymentIntent (correctness),Passed,00:00:00.4931791,1229025,0
OrderServices.OrderServices.GetOrderById (correctness),Passed,00:00:00.3731932,747246,0
StableSort.InsertKeepsTies (correctness),Passed,00:00:00.3341026,869498,0
CacheAttribute.SortedDictionaryUnique (correctness),Passed,00:00:00.2992331,629058,0
Repository.SpecificationByKeyIsGetById (correctness),Passed,00:00:00.2881888,616764,0
OrderSpecifications.OrdersOfUserResult (correctness),Passed,00:00:00.2585838,612641,0
SpecificationsEvaluator.WhereUniqueKey (correctness),Passed,00:00:00.2495778,539790,0
OrderServices.OrderServices.ConvertItems (correctness),Passed,00:00:00.2069989,609234,0
Store.StoreContext.SaveChanges (correctness),Passed,00:00:00.1919294,455648,0
PaymentServices.PaymentServices.RefreshItemPrices (correctness),Passed,00:00:00.1807582,467497,0
CacheAttribute.CreateCacheKey (correctness),Passed,00:00:00.1557410,510575,0
OrderServices.OrderServices.GetAllOrders (correctness),Passed,00:00:00.1522615,380291,0
UnitOfWork.UnitOfWork.GetRepository (correctness),Passed,00:00:00.1513841,388011,0
OrderServices.OrderServices.CreateOrder (well-formedness),Passed,00:00:00.1506660,303275,0
PaymentServices.PlanPayment (well-formedness),Passed,00:00:00.1505032,311283,0
OrderServices.PlanOrder (well-formedness),Passed,00:00:00.1504906,301607,0
OrderServices.PlannedOrderTotal (well-formedness),Passed,00:00:00.1494980,124984,0
CacheAttribute.CacheAttribute.OnActionExecution (correctness),Passed,00:00:00.1423884,261406,0
OrderServices.PlannedOrderTotal (correctness),Passed,00:00:00.1312942,220155,0
OrderServices.OrderServices.Plan (well-formedness),Passed,00:00:00.1305134,168864,0
StableSort.InsertSorted (correctness),Passed,00:00:00.1246648,186466,0
Repository.SpecificationByKeyIsGetById (well-formedness),Passed,00:00:00.1225444,103325,0
PaymentServices.PaymentServices.CreateOrUpdatePaymentIntent (well-formedness),Passed,00:00:00.1221928,278063,0
PaymentServices.RefreshPrices (well-formedness),Passed,00:00:00.1156934,157432,0
ProductSpecifications.ProductListSpec (well-formedness),Passed,00:00:00.1129093,98428,0
ProductSpecifications.NewProductSpecifications (correctness),Passed,00:00:00.1120193,205697,0
PaymentServices.PaymentServices.Plan (well-formedness),Passed,00:00:00.1089149,164862,0
Repository.GenericRepository.GetByIdWithSpecifications (well-formedness),Passed,00:00:00.1079374,151273,0
SpecificationsEvaluator.CreateQueryIgnoresPagination (correctness),Passed,00:00:00.1068493,247719,0
UnitOfWork.UnitOfWork.SaveChanges (well-formedness),Passed,00:00:00.1065917,153882,0
Store.StoreContext._ctor (correctness),Passed,00:00:00.1048035,165873,0
CacheAttribute.CacheAttribute.OnActionExecution (well-formedness),Passed,00:00:00.1020740,132245,0
UnitOfWork.UnitOfWork.GetProductRepository (correctness),Passed,00:00:00.1014417,176043,0
Redis.RedisDatabase.StringGet (well-formedness),Passed,00:00:00.1014153,32909,0
UnitOfWork.UnitOfWork.GetRepository (well-formedness),Passed,00:00:00.0961391,115238,0
OrderSpecifications.OrderByIdSpec (well-formedness),Passed,00:00:00.0907169,80264,0
StableSort.SortByKeepsSorted (correctness),Passed,00:00:00.0898807,192085,0
StableSort.SortedBy (well-formedness),Passed,00:00:00.0895527,36828,0
UnitOfWork.UnitOfWork.GetOrderRepository (correctness),Passed,00:00:00.0885505,166457,0
SpecificationsEvaluator.CreateQueryFilters (correctness),Passed,00:00:00.0868466,94819,0
OrderSpecifications.OrderByIdAtMostOne (correctness),Passed,00:00:00.0858080,186630,0
ProductSpecifications.UnfilteredCountIsAll (correctness),Passed,00:00:00.0854161,156933,0
OrderServices.OrderItemsFor (well-formedness),Passed,00:00:00.0850892,52548,0
UnitOfWork.UnitOfWork.SaveChanges (correctness),Passed,00:00:00.0837986,174284,0
CacheRepository.CacheRepository.Set (well-formedness),Passed,00:00:00.0830705,52540,0
OrderServices.OrderServices.GetDeliveryMethods (well-formedness),Passed,00:00:00.0815811,132494,0
CacheAttribute.CacheKeyOf (well-formedness),Passed,00:00:00.0801492,67468,0
OrderSpecifications.OrdersOfUserSpec (well-formedness),Passed,00:00:00.0801071,75078,0
UnitOfWork.UnitOfWork._ctor (correctness),Passed,00:00:00.0786069,88490,0
CacheRepository.CacheRepository.Get (well-formedness),Passed,00:00:00.0776502,41369,0
BasketLines.FirstMissingProduct (well-formedness),Passed,00:00:00.0774834,204370,0
BasketServices.BasketServices.DeleteBasket (correctness),Passed,00:00:00.0774568,83393,0
Store.StoreContext.SaveChanges (well-formedness),Passed,00:00:00.0774063,144132,0
SpecificationsEvaluator.CreateQueryFilters (well-formedness),Passed,00:00:00.0766045,77806,0
Repository.GenericRepository.GetById (well-formedness),Passed,00:00:00.0764510,40286,0
ProductSpecifications.ProductCriteria (well-formedness),Passed,00:00:00.0762670,51404,0
Store.RemoveKeyIsSubsequence (correctness),Passed,00:00:00.0758772,262946,0
Store.ApplyChangeKeepsKeysUnique (well-formedness),Passed,00:00:00.0757035,55461,0
SpecificationsEvaluator.WhereNone (correctness),Passed,00:00:00.0753881,41739,0
ProductQuery.ClampPageSize (well-formedness),Passed,00:00:00.0749483,7068,0
OrderSpecifications.OrdersOfUserResult (well-formedness),Passed,00:00:00.0748209,121605,0
ProductQuery.ClampPageSizeIdempotent (correctness),Passed,00:00:00.0746142,4982,0
Repository.GenericRepository.GetAllWithSpecifications (well-formedness),Passed,00:00:00.0738652,160045,0
SpecificationsEvaluator.CreateQueryAscending (correctness),Passed,00:00:00.0703741,93583,0
PaymentServices.RepeatedPaymentUpdates (well-formedness),Passed,00:00:00.0698562,133891,0
ProductSpecifications.NewProductSpecifications (well-formedness),Passed,00:00:00.0671965,92299,0
OrderSpecifications.NewOrderSpecificationById (correctness),Passed,00:00:00.0670985,107243,0
SpecificationsEvaluator.Where (well-formedness),Passed,00:00:00.0665391,145691,0
OrderServices.OrderServices.GetOrderById (well-formedness),Passed,00:00:00.0661414,148181,0
OrderServices.OrderServices.GetDeliveryMethods (correctness),Passed,00:00:00.0660109,157895,0
ProductSpecifications.NewProductSpecificationsById (correctness),Passed,00:00:00.0654642,123539,0
ProductSpecifications.CountMatchesListing (correctness),Passed,00:00:00.0647724,123746,0
SpecificationsEvaluator.CreateQueryDescending (well-formedness),Passed,00:00:00.0641196,79471,0
PaymentServices.RepeatedPaymentUpdates (correctness),Passed,00:00:00.0636587,173517,0
UnitOfWork.UnitOfWork.GetDeliveryMethodRepository (correctness),Passed,00:00:00.0630837,168700,0
CacheAttribute.SortedHeadsEqual (correctness),Passed,00:00:00.0628493,78397,0
ProductSpecifications.ProductCountSpec (well-formedness),Passed,00:00:00.0621988,81908,0
OrderSpecifications.OrderWithPaymentIntentResult (correctness),Passed,00:00:00.0621453,145267,0
OrderServices.SubTotal (well-formedness),Passed,00:00:00.0621099,15489,0
BasketRepository.BasketRepository.DeleteBasket (well-formedness),Passed,00:00:00.0619937,55014,0
OrderServices.OrderServices.GetAllOrders (well-formedness),Passed,00:00:00.0600644,166748,0
PaymentServices.PaymentServices.RefreshItemPrices (well-formedness),Passed,00:00:00.0594515,88000,0
Specifications.BaseSpecification.AddOrderByDesc (well-formedness),Passed,00:00:00.0589218,22758,0
Store.ApplyAllKeepsKeysUnique (correctness),Passed,00:00:00.0587772,72119,0
BasketServices.BasketServices._ctor (correctness),Passed,00:00:00.0582544,6776,0
StableSort.SortByKeepsTies (correctness),Passed,00:00:00.0575054,137118,0
SpecificationsEvaluator.CreateQueryBothKeys (correctness),Passed,00:00:00.0569643,107203,0
Specifications.BaseSpecification.AddOrderBy (correctness),Passed,00:00:00.0557828,24205,0
Store.StoreContext._ctor (well-formedness),Passed,00:00:00.0551304,63861,0
UnitOfWork.UnitOfWork.GetOrderRepository (well-formedness),Passed,00:00:00.0549620,83705,0
PaymentServices.ItemsCharge (well-formedness),Passed,00:00:00.0548285,18864,0
SpecificationsEvaluator.CreateQueryPermutesFiltered (correctness),Passed,00:00:00.0544708,85822,0
Domain.GetTotal (well-formedness),Passed,00:00:00.0542280,34761,0
PaymentServices.PaymentServices.Valid (well-formedness),Passed,00:00:00.0531505,140863,0
ProductSpecifications.NewCountProductSpecifications (well-formedness),Passed,00:00:00.0514471,92832,0
Store.ApplyChangeKeepsKeysUnique (correctness),Passed,00:00:00.0510608,141110,0
StableSort.SortBySorted (correctness),Passed,00:00:00.0504984,56556,0
Store.AddedIsFound (correctness),Passed,00:00:00.0504387,75633,0
OrderServices.OrderServices.Valid (well-formedness),Passed,00:00:00.0498723,125760,0
BasketServices.BasketServices.CreateOrUpdateBasket (correctness),Passed,00:00:00.0497528,121714,0
Repository.UnfilteredIsGetAll (well-formedness),Passed,00:00:00.0489588,84785,0
Repository.UnfilteredIsGetAll (correctness),Passed,00:00:00.0489184,88277,0
PaymentServices.AmountInCents (correctness),Passed,00:00:00.0483801,228876,0
CacheAttribute.SortedHeadLeast (well-formedness),Passed,00:00:00.0483418,43613,0
OrderServices.OrderServices.Commits (well-formedness),Passed,00:00:00.0473024,47556,0
PictureUrl.ResolvePictureUrl (well-formedness),Passed,00:00:00.0466172,24254,0
StableSort.SortedGivesTiesOrdered (correctness),Passed,00:00:00.0454389,50652,0
BasketRepository.BasketRepository.CreateUpdateBasket (correctness),Passed,00:00:00.0451291,100931,0
Ordering.KeyLeReflexive (correctness),Passed,00:00:00.0442531,25671,0
Redis.RedisDatabase.StringSet (correctness),Passed,00:00:00.0441804,69000,0
ProductSpecifications.ProductByIdSpec (well-formedness),Passed,00:00:00.0440239,106276,0
SpecificationsEvaluator.WhereIsSubsequence (correctness),Passed,00:00:00.0437555,68052,0
ProductSpecifications.NewProductSpecificationsById (well-formedness),Passed,00:00:00.0428141,88825,0
StableSort.Insert (well-formedness),Passed,00:00:00.0425436,119076,0
BasketRepository.BasketRepository.CreateUpdateBasket (well-formedness),Passed,00:00:00.0420799,82999,0
SpecificationsEvaluator.CreateQueryDescending (correctness),Passed,00:00:00.0417953,93088,0
BasketServices.BasketServices.DeleteBasket (well-formedness),Passed,00:00:00.0415275,75115,0
Store.ApplyChange (well-formedness),Passed,00:00:00.0413618,66579,0
ProductSpecifications.NewCountProductSpecifications (correctness),Passed,00:00:00.0410458,98845,0
UnitOfWork.UnitOfWork.GetDeliveryMethodRepository (well-formedness),Passed,00:00:00.0402233,83705,0
BasketServices.BasketServices.CreateOrUpdateBasket (well-formedness),Passed,00:00:00.0400374,83331,0
OrderServices.SubTotalOfBasket (correctness),Passed,00:00:00.0399451,62365,0
SpecificationsEvaluator.CreateQueryMembers (correctness),Passed,00:00:00.0398348,86664,0
Ordering.KeyLeTotal (correctness),Passed,00:00:00.0396122,28362,0
StableSort.SortBy (well-formedness),Passed,00:00:00.0390772,85399,0
OrderServices.OrderServices.ConvertItems (well-formedness),Passed,00:00:00.0389374,85855,0
Store.StoreContext.Applicable (well-formedness),Passed,00:00:00.0384607,76460,0
SpecificationsEvaluator.Filtered (well-formedness),Passed,00:00:00.0383598,62190,0
CacheAttribute.SortedHeadsEqual (well-formedness),Passed,00:00:00.0383574,54158,0
SpecificationsEvaluator.CreateQueryBothKeys (well-formedness),Passed,00:00:00.0373238,87828,0
SpecificationsEvaluator.CreateQueryMembers (well-formedness),Passed,00:00:00.0370845,77319,0
BasketServices.BasketServices.GetBasket (well-formedness),Passed,00:00:00.0367045,75043,0
Store.ApplySingleInsert (correctness),Passed,00:00:00.0360839,63196,0
OrderSpecifications.NewOrderSpecificationByEmail (correctness),Passed,00:00:00.0353119,103056,0
SpecificationsEvaluator.CreateQueryShape (correctness),Passed,00:00:00.0350241,81864,0
BasketRepository.BasketRepository.DeleteBasket (correctness),Passed,00:00:00.0345908,73261,0
SpecificationsEvaluator.CreateQueryAscending (well-formedness),Passed,00:00:00.0345805,79621,0
SpecificationsEvaluator.SameCriteriaSameCount (correctness),Passed,00:00:00.0344881,82278,0
SpecificationsEvaluator.CreateQueryUnfiltered (correctness),Passed,00:00:00.0338013,79188,0
Store.ApplyAll (well-formedness),Passed,00:00:00.0334349,58153,0
UnitOfWork.UnitOfWork.Valid (well-formedness),Passed,00:00:00.0328097,52774,0
BasketRepository.BasketRepository.GetBasket (well-formedness),Passed,00:00:00.0327767,61172,0
Redis.RedisDatabase.KeyDelete (correctness),Passed,00:00:00.0325871,54185,0
UnitOfWork.UnitOfWork.GetProductRepository (well-formedness),Passed,00:00:00.0324976,83705,0
PaymentServices.PaymentAmount (well-formedness),Passed,00:00:00.0315731,88309,0
CacheAttribute.CacheKeyIgnoresArrivalOrder (correctness),Passed,00:00:00.0302121,76053,0
CacheAttribute.SortedHeadLeast (correctness),Passed,00:00:00.0300878,55743,0
PaymentServices.RefreshPricesIdempotent (correctness),Passed,00:00:00.0289661,59142,0
CacheAttribute.SortedQuery (well-formedness),Passed,00:00:00.0288046,57855,0
SpecificationsEvaluator.Ordered (well-formedness),Passed,00:00:00.0287880,69147,0
PaymentServices.RefreshPricesIdempotent (well-formedness),Passed,00:00:00.0285809,66239,0
StableSort.BeforeTransitive (correctness),Passed,00:00:00.0285808,42459,0
UnitOfWork.UnitOfWork.Serves (well-formedness),Passed,00:00:00.0281265,42501,0
OrderSpecifications.NewOrderSpecificationById (well-formedness),Passed,00:00:00.0277461,72552,0
Store.ApplyAllKeepsKeysUnique (well-formedness),Passed,00:00:00.0271298,58409,0
CacheAttribute.SegmentsAppend (correctness),Passed,00:00:00.0270619,95542,0
Store.ReplaceKey (well-formedness),Passed,00:00:00.0269921,39620,0
OrderSpecifications.NewOrderWithPaymentIntentIdSpecification (correctness),Passed,00:00:00.0269632,67384,0
Store.StoreContext.Valid (well-formedness),Passed,00:00:00.0265833,58649,0
ProductSpecifications.SearchIgnoresCase (correctness),Passed,00:00:00.0265700,62564,0
Redis.RedisDatabase.StringSet (well-formedness),Passed,00:00:00.0264090,42794,0
BasketRepository.BasketRepository._ctor (correctness),Passed,00:00:00.0262465,37516,0
CacheRepository.CacheRepository.Set (correctness),Passed,00:00:00.0250707,56522,0
PaymentServices.AmountIsWholeHundreds (correctness),Passed,00:00:00.0248321,70889,0
Store.RemoveKey (well-formedness),Passed,00:00:00.0243910,54453,0
Store.FindByKey (well-formedness),Passed,00:00:00.0243778,45351,0
ProductSpecifications.NoFilterMatchesAll (correctness),Passed,00:00:00.0241997,45769,0
UnitOfWork.UnitOfWork.DomainTypesOnly (well-formedness),Passed,00:00:00.0239598,64930,0
OrderSpecifications.OrderWithPaymentIntentSpec (well-formedness),Passed,00:00:00.0237892,67787,0
OrderSpecifications.NewOrderSpecificationByEmail (well-formedness),Passed,00:00:00.0236579,66566,0
ProductSpecifications.NoFilterMatchesAll (well-formedness),Passed,00:00:00.0231417,43558,0
OrderSpecifications.NewOrderWithPaymentIntentIdSpecification (well-formedness),Passed,00:00:00.0227287,60684,0
Store.AddedIsFound (well-formedness),Passed,00:00:00.0226744,57128,0
PaymentServices.Repriced (well-formedness),Passed,00:00:00.0223887,39644,0
Ordering.StrLeAntisymmetric (correctness),Passed,00:00:00.0217387,31646,0
CacheAttribute.DistinctKeysTail (correctness),Passed,00:00:00.0210253,58284,0
Domain.GetTotalMonotone (correctness),Passed,00:00:00.0205367,37025,0
CacheAttribute.SortedTail (correctness),Passed,00:00:00.0203980,54234,0
StableSort.BeforeTotal (correctness),Passed,00:00:00.0203954,32789,0
Store.DbSet._ctor (correctness),Passed,00:00:00.0202456,39747,0
Repository.GenericRepository.Delete (correctness),Passed,00:00:00.0202371,23481,0
SpecificationsEvaluator.IncludeAllKeepsRows (correctness),Passed,00:00:00.0201541,64013,0
PaymentServices.AmountIsWholeHundreds (well-formedness),Passed,00:00:00.0200181,43066,0
CacheAttribute.SortedTail (well-formedness),Passed,00:00:00.0194127,41388,0
StableSort.TiesOrderedBy (well-formedness),Passed,00:00:00.0192280,38652,0
PaymentServices.AmountInCents (well-formedness),Passed,00:00:00.0187212,44910,0
BasketItemValidation.ValidBasketItemBounds (correctness),Passed,00:00:00.0183964,43775,0
Redis.RedisDatabase.KeyDelete (well-formedness),Passed,00:00:00.0182658,35995,0
Specifications.BaseSpecification._ctor (correctness),Passed,00:00:00.0180554,36735,0
Specifications.BaseSpecification.View (well-formedness),Passed,00:00:00.0179811,32421,0
ProductQuery.ProductQueryParam._ctor (correctness),Passed,00:00:00.0178681,24483,0
OrderServices.OrderServices.NothingStaged (well-formedness),Passed,00:00:00.0177448,30377,0
Domain.GetTotalMonotone (well-formedness),Passed,00:00:00.0174793,39389,0
CacheAttribute.Segments (well-formedness),Passed,00:00:00.0173453,20588,0
Redis.RedisDatabase._ctor (correctness),Passed,00:00:00.0167168,21757,0
SpecificationsEvaluator.IsSubsequence (well-formedness),Passed,00:00:00.0164779,16807,0
PaymentServices.ItemsChargeIsHundredfoldTotal (correctness),Passed,00:00:00.0162876,24718,0
OrderServices.OrderServices._ctor (correctness),Passed,00:00:00.0161998,8778,0
ProductSpecifications.ToLower (well-formedness),Passed,00:00:00.0159391,21301,0
BasketLines.BasketTotal (well-formedness),Passed,00:00:00.0159287,18792,0
Ordering.KeyLeTransitive (correctness),Passed,00:00:00.0157006,33186,0
PictureUrl.OrderItemPictureUrl (well-formedness),Passed,00:00:00.0151479,34479,0
ProductSpecifications.LowerChar (well-formedness),Passed,00:00:00.0151035,6523,0
BasketItemValidation.ValidationErrors (well-formedness),Passed,00:00:00.0150389,46843,0
Repository.GenericRepository.GetAll (well-formedness),Passed,00:00:00.0149890,13334,0
Specifications.BaseSpecification.AddOrderByDesc (correctness),Passed,00:00:00.0148009,24205,0
Specifications.BaseSpecification.AddInclude (correctness),Passed,00:00:00.0145752,16383,0
CacheAttribute.CacheAttribute._ctor (correctness),Passed,00:00:00.0144332,24594,0
ProductSpecifications.ToLowerIdempotent (correctness),Passed,00:00:00.0144083,28349,0
Repository.GenericRepository.Update (well-formedness),Passed,00:00:00.0135574,22728,0
ProductQuery.ProductQueryParam.SetPageSize (well-formedness),Passed,00:00:00.0135435,7980,0
BasketItemValidation.ValidationIgnoresIdentity (correctness),Passed,00:00:00.0131989,37595,0
Ordering.KeyLeAntisymmetric (correctness),Passed,00:00:00.0127972,28251,0
Domain.NewOrder (well-formedness),Passed,00:00:00.0124824,26997,0
PaymentServices.Wrap64 (well-formedness),Passed,00:00:00.0123731,49246,0
SpecificationsEvaluator.IncludeAll (well-formedness),Passed,00:00:00.0121677,23738,0
PaymentServices.TruncDiv (well-formedness),Passed,00:00:00.0119747,24563,0
Ordering.StrLe (well-formedness),Passed,00:00:00.0118821,16871,0
Domain.UniqueKeys (well-formedness),Passed,00:00:00.0118759,16858,0
Ordering.StrLeTransitive (correctness),Passed,00:00:00.0118155,23923,0
Repository.GenericRepository.Update (correctness),Passed,00:00:00.0114491,23481,0
Repository.GenericRepository.Delete (well-formedness),Passed,00:00:00.0114158,22728,0
Repository.GenericRepository.Add (correctness),Passed,00:00:00.0112622,23481,0
PictureUrl.BaseOf (well-formedness),Passed,00:00:00.0110848,8080,0
PaymentServices.DivBounds (well-formedness),Passed,00:00:00.0110839,4873,0
Repository.GenericRepository.Add (well-formedness),Passed,00:00:00.0109408,22728,0
Specifications.BaseSpecification.AddOrderBy (well-formedness),Passed,00:00:00.0103638,22758,0
PaymentServices.PaymentServices._ctor (correctness),Passed,00:00:00.0102277,8778,0
Store.DbSet.Stage (well-formedness),Passed,00:00:00.0095312,18569,0
ProductSpecifications.Contains (well-formedness),Passed,00:00:00.0095211,14153,0
Ordering.StrLeReflexive (correctness),Passed,00:00:00.0093044,14378,0
Store.DbSet.Stage (correctness),Passed,00:00:00.0091014,21616,0
Store.DbSet.Valid (well-formedness),Passed,00:00:00.0090688,23807,0
Store.StoreContext.PendingCount (well-formedness),Passed,00:00:00.0089448,22292,0
Ordering.StrLeTotal (correctness),Passed,00:00:00.0088459,19716,0
CacheAttribute.DistinctKeysTail (well-formedness),Passed,00:00:00.0084140,21809,0
Specifications.BaseSpecification.AddInclude (well-formedness),Passed,00:00:00.0075503,15453,0
PaymentServices.DivBounds (correctness),Passed,00:00:00.0074066,17292,0
Repository.GenericRepository._ctor (correctness),Passed,00:00:00.0068057,10458,0
CacheRepository.CacheRepository._ctor (correctness),Passed,00:00:00.0066640,6776,0
ProductQuery.ProductQueryParam.SetPageSize (correctness),Passed,00:00:00.0063089,10959,0
