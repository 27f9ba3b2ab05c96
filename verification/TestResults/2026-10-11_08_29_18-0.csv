TestResult.DisplayName,TestResult.Outcome,TestResult.Duration,TestResult.ResourceCount,RandomSeed
OrderServices.OrderServices.CreateOrder (correctness),Passed,00:00:00.8939026,2113605,1
PaymentServices.PaymentServices.CreateOrUpdatePaymentIntent (correctness),Passed,00:00:00.5760455,1395616,1
OrderServices.OrderServices.GetOrderById (correctness),Passed,00:00:00.3741867,940092,1
Repository.SpecificationByKeyIsGetById (correctness),Passed,00:00:00.2654693,622140,1
CacheAttribute.SortedDictionaryUnique (correctness),Passed,00:00:00.2476927,776793,1
OrderSpecifications.OrdersOfUserResult (correctness),Passed,00:00:00.2377705,548811,1
StableSort.InsertKeepsTies (correctness),Passed,00:00:00.2193934,676405,1
SpecificationsEvaluator.WhereUniqueKey (correctness),Passed,00:00:00.2176961,420935,1
CacheAttribute.CreateCacheKey (correctness),Passed,00:00:00.2158031,582231,1
OrderServices.OrderServices.ConvertItems (correctness),Passed,00:00:00.1974035,639597,1
OrderServices.OrderServices.GetAllOrders (correctness),Passed,00:00:00.1948803,508908,1
Store.StoreContext.SaveChanges (correctness),Passed,00:00:00.1775890,449608,1
PaymentServices.PlanPayment (well-formedness),Passed,00:00:00.1697340,307153,1
CacheAttribute.CacheAttribute.OnActionExecution (correctness),Passed,00:00:00.1662924,266236,1
OrderServices.PlanOrder (well-formedness),Passed,00:00:00.1543719,305420,1
UnitOfWork.UnitOfWork.GetRepository (correctness),Passed,00:00:00.1436066,392328,1
PaymentServices.PaymentServices.RefreshItemPrices (correctness),Passed,00:00:00.1435506,382208,1
OrderServices.OrderServices.CreateOrder (well-formedness),Passed,00:00:00.1361158,303178,1
PaymentServices.PaymentServices.CreateOrUpdatePaymentIntent (well-formedness),Passed,00:00:00.1272412,278053,1
StableSort.InsertSorted (correctness),Passed,00:00:00.1257035,207157,1
BasketLines.FirstMissingProduct (well-formedness),Passed,00:00:00.1247475,299705,1
CacheAttribute.CacheKeyOf (well-formedness),Passed,00:00:00.1242391,67492,1
OrderServices.PlannedOrderTotal (correctness),Passed,00:00:00.1147586,204314,1
StableSort.SortByKeepsSorted (correctness),Passed,00:00:00.1092301,280742,1
Store.FindByKey (well-formedness),Passed,00:00:00.1021570,43858,1
SpecificationsEvaluator.CreateQueryIgnoresPagination (correctness),Passed,00:00:00.1005564,219156,1
PaymentServices.RefreshPrices (well-formedness),Passed,00:00:00.0984843,159237,1
SpecificationsEvaluator.CreateQueryFilters (correctness),Passed,00:00:00.0966241,95123,1
Repository.SpecificationByKeyIsGetById (well-formedness),Passed,00:00:00.0960381,103378,1
Repository.GenericRepository.GetByIdWithSpecifications (well-formedness),Passed,00:00:00.0944815,151969,1
ProductSpecifications.NewProductSpecifications (correctness),Passed,00:00:00.0928921,207310,1
OrderServices.OrderServices.Plan (well-formedness),Passed,00:00:00.0927934,168812,1
Repository.GenericRepository.GetAllWithSpecifications (well-formedness),Passed,00:00:00.0911208,164131,1
OrderSpecifications.OrderByIdAtMostOne (correctness),Passed,00:00:00.0905946,189744,1
Redis.RedisDatabase.StringGet (well-formedness),Passed,00:00:00.0900537,32898,1
SpecificationsEvaluator.CreateQueryDescending (well-formedness),Passed,00:00:00.0895606,79507,1
Store.StoreContext._ctor (correctness),Passed,00:00:00.0888857,180030,1
ProductQuery.ClampPageSizeIdempotent (correctness),Passed,00:00:00.0886715,4982,1
UnitOfWork.UnitOfWork.GetRepository (well-formedness),Passed,00:00:00.0882780,115279,1
ProductQuery.ClampPageSize (well-formedness),Passed,00:00:00.0881353,7068,1
Redis.RedisDatabase.StringSet (well-formedness),Passed,00:00:00.0876786,44574,1
PaymentServices.PaymentServices.Plan (well-formedness),Passed,00:00:00.0865376,164838,1
OrderSpecifications.OrderByIdSpec (well-formedness),Passed,00:00:00.0859925,80611,1
ProductSpecifications.ProductListSpec (well-formedness),Passed,00:00:00.0859080,98201,1
StableSort.SortBySorted (correctness),Passed,00:00:00.0844656,58320,1
Repository.GenericRepository.GetById (well-formedness),Passed,00:00:00.0826361,40281,1
ProductSpecifications.UnfilteredCountIsAll (correctness),Passed,00:00:00.0809637,158280,1
StableSort.SortedBy (well-formedness),Passed,00:00:00.0802241,36827,1
OrderServices.OrderServices.GetDeliveryMethods (correctness),Passed,00:00:00.0801708,155208,1
OrderSpecifications.OrdersOfUserSpec (well-formedness),Passed,00:00:00.0799988,75103,1
Store.ApplyChangeKeepsKeysUnique (correctness),Passed,00:00:00.0778285,141423,1
Store.StoreContext.SaveChanges (well-formedness),Passed,00:00:00.0755507,144066,1
Store.AddedIsFound (correctness),Passed,00:00:00.0750170,75759,1
SpecificationsEvaluator.CreateQueryFilters (well-formedness),Passed,00:00:00.0743431,77755,1
BasketServices.BasketServices.GetBasket (well-formedness),Passed,00:00:00.0737182,75046,1
CacheRepository.CacheRepository.Set (well-formedness),Passed,00:00:00.0736989,52502,1
UnitOfWork.UnitOfWork.GetProductRepository (correctness),Passed,00:00:00.0734251,176203,1
Store.ApplySingleInsert (correctness),Passed,00:00:00.0717140,63180,1
UnitOfWork.UnitOfWork.GetOrderRepository (correctness),Passed,00:00:00.0712431,165007,1
OrderSpecifications.OrdersOfUserResult (well-formedness),Passed,00:00:00.0706983,121615,1
UnitOfWork.UnitOfWork._ctor (correctness),Passed,00:00:00.0696625,88434,1
ProductSpecifications.CountMatchesListing (correctness),Passed,00:00:00.0693572,123711,1
UnitOfWork.UnitOfWork.SaveChanges (correctness),Passed,00:00:00.0687017,169439,1
CacheAttribute.CacheAttribute.OnActionExecution (well-formedness),Passed,00:00:00.0677854,132237,1
UnitOfWork.UnitOfWork.GetDeliveryMethodRepository (correctness),Passed,00:00:00.0677558,167802,1
OrderServices.SubTotalOfBasket (correctness),Passed,00:00:00.0666920,62137,1
OrderSpecifications.NewOrderSpecificationById (correctness),Passed,00:00:00.0662382,107163,1
PaymentServices.RepeatedPaymentUpdates (well-formedness),Passed,00:00:00.0656016,133805,1
PaymentServices.PaymentServices.Valid (well-formedness),Passed,00:00:00.0654877,140861,1
UnitOfWork.UnitOfWork.SaveChanges (well-formedness),Passed,00:00:00.0650510,153816,1
ProductSpecifications.NewCountProductSpecifications (correctness),Passed,00:00:00.0643726,98840,1
SpecificationsEvaluator.WhereNone (correctness),Passed,00:00:00.0636796,41814,1
StableSort.Insert (well-formedness),Passed,00:00:00.0621995,139763,1
Store.StoreContext.Applicable (well-formedness),Passed,00:00:00.0610425,76468,1
PaymentServices.RepeatedPaymentUpdates (correctness),Passed,00:00:00.0606980,166306,1
Specifications.BaseSpecification.View (well-formedness),Passed,00:00:00.0606492,32417,1
OrderServices.OrderServices.ConvertItems (well-formedness),Passed,00:00:00.0600839,85863,1
ProductSpecifications.ProductByIdSpec (well-formedness),Passed,00:00:00.0594922,106490,1
CacheRepository.CacheRepository.Get (well-formedness),Passed,00:00:00.0592970,41368,1
SpecificationsEvaluator.CreateQueryPermutesFiltered (correctness),Passed,00:00:00.0566257,85608,1
Ordering.KeyLeTotal (correctness),Passed,00:00:00.0565244,28396,1
Specifications.BaseSpecification.AddOrderByDesc (correctness),Passed,00:00:00.0561921,24200,1
OrderServices.OrderServices.GetAllOrders (well-formedness),Passed,00:00:00.0557120,167286,1
SpecificationsEvaluator.Where (well-formedness),Passed,00:00:00.0555683,143118,1
Domain.GetTotalMonotone (well-formedness),Passed,00:00:00.0551983,39498,1
OrderServices.PlannedOrderTotal (well-formedness),Passed,00:00:00.0548097,124958,1
OrderSpecifications.NewOrderSpecificationById (well-formedness),Passed,00:00:00.0547606,72531,1
Store.RemoveKeyIsSubsequence (correctness),Passed,00:00:00.0540806,148434,1
ProductSpecifications.NewProductSpecificationsById (well-formedness),Passed,00:00:00.0539517,88827,1
ProductSpecifications.NewProductSpecificationsById (correctness),Passed,00:00:00.0538624,124059,1
Ordering.KeyLeAntisymmetric (correctness),Passed,00:00:00.0525128,28251,1
SpecificationsEvaluator.CreateQueryAscending (well-formedness),Passed,00:00:00.0523297,79619,1
OrderServices.OrderServices.GetOrderById (well-formedness),Passed,00:00:00.0519304,148297,1
Domain.GetTotalMonotone (correctness),Passed,00:00:00.0516648,38217,1
BasketServices.BasketServices.CreateOrUpdateBasket (correctness),Passed,00:00:00.0515867,121179,1
OrderSpecifications.OrderWithPaymentIntentResult (correctness),Passed,00:00:00.0513503,145175,1
BasketRepository.BasketRepository.CreateUpdateBasket (correctness),Passed,00:00:00.0513289,101847,1
PaymentServices.PaymentAmount (well-formedness),Passed,00:00:00.0505750,87882,1
SpecificationsEvaluator.CreateQueryDescending (correctness),Passed,00:00:00.0500797,91937,1
OrderServices.OrderServices.Valid (well-formedness),Passed,00:00:00.0475462,125711,1
StableSort.SortBy (well-formedness),Passed,00:00:00.0467852,93363,1
StableSort.SortByKeepsTies (correctness),Passed,00:00:00.0467597,138343,1
SpecificationsEvaluator.CreateQueryBothKeys (correctness),Passed,00:00:00.0463225,107249,1
SpecificationsEvaluator.CreateQueryBothKeys (well-formedness),Passed,00:00:00.0455378,87600,1
StableSort.SortedGivesTiesOrdered (correctness),Passed,00:00:00.0450002,50235,1
OrderServices.OrderServices.GetDeliveryMethods (well-formedness),Passed,00:00:00.0441414,132453,1
SpecificationsEvaluator.CreateQueryAscending (correctness),Passed,00:00:00.0441017,93819,1
CacheAttribute.SortedHeadsEqual (correctness),Passed,00:00:00.0431660,78505,1
Repository.UnfilteredIsGetAll (correctness),Passed,00:00:00.0428049,88242,1
ProductSpecifications.ProductCountSpec (well-formedness),Passed,00:00:00.0419387,81188,1
SpecificationsEvaluator.CreateQueryUnfiltered (correctness),Passed,00:00:00.0402813,79224,1
SpecificationsEvaluator.CreateQueryMembers (correctness),Passed,00:00:00.0401142,84833,1
SpecificationsEvaluator.CreateQueryShape (correctness),Passed,00:00:00.0397266,82617,1
OrderServices.OrderServices.Commits (well-formedness),Passed,00:00:00.0397197,47545,1
BasketRepository.BasketRepository.DeleteBasket (correctness),Passed,00:00:00.0395003,73095,1
SpecificationsEvaluator.SameCriteriaSameCount (correctness),Passed,00:00:00.0387919,82121,1
SpecificationsEvaluator.Filtered (well-formedness),Passed,00:00:00.0386278,62045,1
BasketRepository.BasketRepository.CreateUpdateBasket (well-formedness),Passed,00:00:00.0384741,82945,1
ProductSpecifications.SearchIgnoresCase (correctness),Passed,00:00:00.0378158,62514,1
Repository.UnfilteredIsGetAll (well-formedness),Passed,00:00:00.0373331,84800,1
OrderSpecifications.NewOrderSpecificationByEmail (correctness),Passed,00:00:00.0363670,102875,1
Store.ApplyAllKeepsKeysUnique (correctness),Passed,00:00:00.0359998,72192,1
OrderSpecifications.NewOrderSpecificationByEmail (well-formedness),Passed,00:00:00.0356462,66535,1
Store.ApplyChange (well-formedness),Passed,00:00:00.0350191,66591,1
Store.StoreContext.Valid (well-formedness),Passed,00:00:00.0344028,58644,1
BasketRepository.BasketRepository.GetBasket (well-formedness),Passed,00:00:00.0341093,61168,1
ProductSpecifications.NewProductSpecifications (well-formedness),Passed,00:00:00.0339461,92295,1
CacheAttribute.SegmentsAppend (correctness),Passed,00:00:00.0337783,91234,1
PaymentServices.PaymentServices.RefreshItemPrices (well-formedness),Passed,00:00:00.0336508,87946,1
SpecificationsEvaluator.CreateQueryMembers (well-formedness),Passed,00:00:00.0334833,77806,1
CacheAttribute.CacheKeyIgnoresArrivalOrder (correctness),Passed,00:00:00.0333468,76232,1
UnitOfWork.UnitOfWork.GetProductRepository (well-formedness),Passed,00:00:00.0331016,83694,1
ProductSpecifications.NewCountProductSpecifications (well-formedness),Passed,00:00:00.0328384,92833,1
BasketServices.BasketServices.DeleteBasket (correctness),Passed,00:00:00.0323903,87551,1
CacheRepository.CacheRepository.Set (correctness),Passed,00:00:00.0321405,55980,1
SpecificationsEvaluator.WhereIsSubsequence (correctness),Passed,00:00:00.0320981,68045,1
ProductQuery.ProductQueryParam._ctor (correctness),Passed,00:00:00.0318515,24492,1
BasketServices.BasketServices.CreateOrUpdateBasket (well-formedness),Passed,00:00:00.0308856,83318,1
CacheAttribute.SortedQuery (well-formedness),Passed,00:00:00.0306158,57852,1
Store.AddedIsFound (well-formedness),Passed,00:00:00.0305272,57208,1
SpecificationsEvaluator.Ordered (well-formedness),Passed,00:00:00.0304938,69121,1
CacheAttribute.SortedTail (correctness),Passed,00:00:00.0303286,54398,1
CacheAttribute.SortedHeadLeast (well-formedness),Passed,00:00:00.0302521,43719,1
UnitOfWork.UnitOfWork.GetDeliveryMethodRepository (well-formedness),Passed,00:00:00.0296884,83694,1
PaymentServices.AmountInCents (correctness),Passed,00:00:00.0295040,175264,1
Store.StoreContext._ctor (well-formedness),Passed,00:00:00.0292285,63859,1
Redis.RedisDatabase.StringSet (correctness),Passed,00:00:00.0289173,67331,1
BasketServices.BasketServices.DeleteBasket (well-formedness),Passed,00:00:00.0288592,75115,1
BasketRepository.BasketRepository.DeleteBasket (well-formedness),Passed,00:00:00.0287948,55001,1
UnitOfWork.UnitOfWork.GetOrderRepository (well-formedness),Passed,00:00:00.0282814,83694,1
OrderSpecifications.NewOrderWithPaymentIntentIdSpecification (correctness),Passed,00:00:00.0281655,67391,1
CacheAttribute.DistinctKeysTail (correctness),Passed,00:00:00.0280401,57688,1
Store.ApplyChangeKeepsKeysUnique (well-formedness),Passed,00:00:00.0278983,55541,1
Store.ApplyAllKeepsKeysUnique (well-formedness),Passed,00:00:00.0276287,58508,1
StableSort.BeforeTransitive (correctness),Passed,00:00:00.0269898,42456,1
OrderSpecifications.OrderWithPaymentIntentSpec (well-formedness),Passed,00:00:00.0258743,67870,1
Store.ApplyAll (well-formedness),Passed,00:00:00.0257013,58153,1
Store.RemoveKey (well-formedness),Passed,00:00:00.0255203,54881,1
CacheAttribute.SortedHeadsEqual (well-formedness),Passed,00:00:00.0254184,54269,1
OrderServices.OrderItemsFor (well-formedness),Passed,00:00:00.0247146,53239,1
ProductSpecifications.NoFilterMatchesAll (correctness),Passed,00:00:00.0245898,45764,1
UnitOfWork.UnitOfWork.DomainTypesOnly (well-formedness),Passed,00:00:00.0242593,64964,1
CacheAttribute.SortedTail (well-formedness),Passed,00:00:00.0240022,41493,1
CacheAttribute.SortedHeadLeast (correctness),Passed,00:00:00.0236734,55738,1
Redis.RedisDatabase.KeyDelete (correctness),Passed,00:00:00.0235227,54590,1
PaymentServices.RefreshPricesIdempotent (well-formedness),Passed,00:00:00.0233305,65433,1
Store.ReplaceKey (well-formedness),Passed,00:00:00.0232414,39293,1
OrderSpecifications.NewOrderWithPaymentIntentIdSpecification (well-formedness),Passed,00:00:00.0231375,60686,1
StableSort.BeforeTotal (correctness),Passed,00:00:00.0228851,32782,1
Store.DbSet._ctor (correctness),Passed,00:00:00.0227225,39282,1
UnitOfWork.UnitOfWork.Valid (well-formedness),Passed,00:00:00.0224374,52775,1
PaymentServices.RefreshPricesIdempotent (correctness),Passed,00:00:00.0222003,59086,1
UnitOfWork.UnitOfWork.Serves (well-formedness),Passed,00:00:00.0217589,42493,1
Repository.GenericRepository.Delete (well-formedness),Passed,00:00:00.0214910,22727,1
Redis.RedisDatabase.KeyDelete (well-formedness),Passed,00:00:00.0211677,35998,1
StableSort.TiesOrderedBy (well-formedness),Passed,00:00:00.0210684,38653,1
ProductSpecifications.ProductCriteria (well-formedness),Passed,00:00:00.0207308,51402,1
BasketRepository.BasketRepository._ctor (correctness),Passed,00:00:00.0203839,37514,1
SpecificationsEvaluator.IncludeAllKeepsRows (correctness),Passed,00:00:00.0198820,70103,1
ProductQuery.ProductQueryParam.SetPageSize (well-formedness),Passed,00:00:00.0194455,7983,1
Ordering.KeyLeReflexive (correctness),Passed,00:00:00.0193274,25670,1
PaymentServices.AmountIsWholeHundreds (correctness),Passed,00:00:00.0190302,65662,1
Repository.GenericRepository.Delete (correctness),Passed,00:00:00.0187522,23479,1
PictureUrl.OrderItemPictureUrl (well-formedness),Passed,00:00:00.0187203,34450,1
Repository.GenericRepository.Add (correctness),Passed,00:00:00.0178633,23479,1
BasketItemValidation.ValidationErrors (well-formedness),Passed,00:00:00.0177333,46832,1
ProductSpecifications.NoFilterMatchesAll (well-formedness),Passed,00:00:00.0176378,43553,1
Specifications.BaseSpecification._ctor (correctness),Passed,00:00:00.0173022,36876,1
PaymentServices.AmountIsWholeHundreds (well-formedness),Passed,00:00:00.0170646,43067,1
PaymentServices.Repriced (well-formedness),Passed,00:00:00.0169345,39612,1
Ordering.StrLeTransitive (correctness),Passed,00:00:00.0167420,23927,1
PaymentServices.TruncDiv (well-formedness),Passed,00:00:00.0163196,21894,1
PaymentServices.ItemsChargeIsHundredfoldTotal (correctness),Passed,00:00:00.0155804,24889,1
PaymentServices.AmountInCents (well-formedness),Passed,00:00:00.0154656,44890,1
Redis.RedisDatabase._ctor (correctness),Passed,00:00:00.0151783,21753,1
Domain.GetTotal (well-formedness),Passed,00:00:00.0151698,34600,1
PaymentServices.Wrap64 (well-formedness),Passed,00:00:00.0151536,50904,1
ProductSpecifications.ToLower (well-formedness),Passed,00:00:00.0149802,21328,1
BasketItemValidation.ValidBasketItemBounds (correctness),Passed,00:00:00.0149256,43966,1
Ordering.StrLeAntisymmetric (correctness),Passed,00:00:00.0149207,31922,1
Specifications.BaseSpecification.AddOrderByDesc (well-formedness),Passed,00:00:00.0147861,22754,1
OrderServices.OrderServices.NothingStaged (well-formedness),Passed,00:00:00.0147798,30375,1
Ordering.KeyLeTransitive (correctness),Passed,00:00:00.0146246,33283,1
Repository.GenericRepository.Update (correctness),Passed,00:00:00.0145649,23479,1
Repository.GenericRepository.Add (well-formedness),Passed,00:00:00.0144750,22727,1
Repository.GenericRepository.Update (well-formedness),Passed,00:00:00.0143218,22727,1
ProductSpecifications.ToLowerIdempotent (correctness),Passed,00:00:00.0142197,28671,1
CacheAttribute.Segments (well-formedness),Passed,00:00:00.0141910,20587,1
CacheAttribute.CacheAttribute._ctor (correctness),Passed,00:00:00.0139272,24596,1
Domain.UniqueKeys (well-formedness),Passed,00:00:00.0136485,16855,1
Ordering.StrLeTotal (correctness),Passed,00:00:00.0133527,19718,1
Store.DbSet.Valid (well-formedness),Passed,00:00:00.0132569,23809,1
Ordering.StrLe (well-formedness),Passed,00:00:00.0132436,16890,1
BasketLines.BasketTotal (well-formedness),Passed,00:00:00.0132196,18750,1
BasketItemValidation.ValidationIgnoresIdentity (correctness),Passed,00:00:00.0129094,38827,1
Store.DbSet.Stage (correctness),Passed,00:00:00.0127041,21619,1
Specifications.BaseSpecification.AddInclude (correctness),Passed,00:00:00.0126983,16387,1
Specifications.BaseSpecification.AddOrderBy (correctness),Passed,00:00:00.0124115,24200,1
PaymentServices.ItemsCharge (well-formedness),Passed,00:00:00.0124011,18830,1
Domain.NewOrder (well-formedness),Passed,00:00:00.0120385,27196,1
SpecificationsEvaluator.IsSubsequence (well-formedness),Passed,00:00:00.0108216,16875,1
Ordering.StrLeReflexive (correctness),Passed,00:00:00.0105559,14368,1
SpecificationsEvaluator.IncludeAll (well-formedness),Passed,00:00:00.0103396,24089,1
PictureUrl.ResolvePictureUrl (well-formedness),Passed,00:00:00.0099119,24256,1
OrderServices.SubTotal (well-formedness),Passed,00:00:00.0095939,15490,1
Specifications.BaseSpecification.AddOrderBy (well-formedness),Passed,00:00:00.0095846,22754,1
Store.StoreContext.PendingCount (well-formedness),Passed,00:00:00.0094755,22293,1
Repository.GenericRepository.GetAll (well-formedness),Passed,00:00:00.0093200,13331,1
Specifications.BaseSpecification.AddInclude (well-formedness),Passed,00:00:00.0091773,15455,1
PaymentServices.DivBounds (correctness),Passed,00:00:00.0090974,34752,1
CacheAttribute.DistinctKeysTail (well-formedness),Passed,00:00:00.0090062,21809,1
PaymentServices.DivBounds (well-formedness),Passed,00:00:00.0086751,4872,1
Store.DbSet.Stage (well-formedness),Passed,00:00:00.0083799,18582,1
ProductQuery.ProductQueryParam.SetPageSize (correctness),Passed,00:00:00.0081289,10949,1
Repository.GenericRepository._ctor (correctness),Passed,00:00:00.0080848,10459,1
BasketServices.BasketServices._ctor (correctness),Passed,00:00:00.0077322,6777,1
ProductSpecifications.Contains (well-formedness),Passed,00:00:00.0074319,14166,1
OrderServices.OrderServices._ctor (correctness),Passed,00:00:00.0069331,8776,1
PictureUrl.BaseOf (well-formedness),Passed,00:00:00.0059825,8080,1
CacheRepository.CacheRepository._ctor (correctness),Passed,00:00:00.0058513,6776,1
PaymentServices.PaymentServices._ctor (correctness),Passed,00:00:00.0057361,8776,1
ProductSpecifications.LowerChar (well-formedness),Passed,00:00:00.0052416,6522,1
