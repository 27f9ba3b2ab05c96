TestResult.DisplayName,TestResult.Outcome,TestResult.Duration,TestResult.ResourceCount,RandomSeed
OrderServices.OrderServices.CreateOrder (correctness),Passed,00:00:00.8685512,2068678,5
CacheAttribute.CreateCacheKey (correctness),Failed,00:00:00.5791159,2061671,5
CacheAttribute.SortedDictionaryUnique (correctness),Passed,00:00:00.5227913,1691410,5
PaymentServices.PaymentServices.CreateOrUpdatePaymentIntent (correctness),Passed,00:00:00.4818087,1211986,5
OrderServices.OrderServices.GetOrderById (correctness),Passed,00:00:00.3020982,765971,5
Repository.SpecificationByKeyIsGetById (correctness),Passed,00:00:00.2537151,621547,5
OrderSpecifications.OrdersOfUserResult (correctness),Passed,00:00:00.2350409,614887,5
OrderServices.OrderServices.ConvertItems (correctness),Passed,00:00:00.2210822,720224,5
OrderServices.OrderServices.GetAllOrders (correctness),Passed,00:00:00.1959851,534925,5
PaymentServices.PaymentServices.RefreshItemPrices (correctness),Passed,00:00:00.1840409,542680,5
UnitOfWork.UnitOfWork.GetRepository (correctness),Passed,00:00:00.1752761,340549,5
Store.StoreContext.SaveChanges (correctness),Passed,00:00:00.1709960,464151,5
PaymentServices.PlanPayment (well-formedness),Passed,00:00:00.1660142,310635,5
StableSort.InsertKeepsTies (correctness),Passed,00:00:00.1656048,454163,5
OrderServices.PlanOrder (well-formedness),Passed,00:00:00.1576860,302779,5
OrderServices.OrderServices.CreateOrder (well-formedness),Passed,00:00:00.1435184,303186,5
PaymentServices.PaymentServices.CreateOrUpdatePaymentIntent (well-formedness),Passed,00:00:00.1433059,278150,5
UnitOfWork.UnitOfWork.GetRepository (well-formedness),Passed,00:00:00.1331368,115274,5
CacheAttribute.CacheAttribute.OnActionExecution (correctness),Passed,00:00:00.1318962,312978,5
Repository.GenericRepository.GetByIdWithSpecifications (well-formedness),Passed,00:00:00.1291466,151107,5
Repository.GenericRepository.GetAllWithSpecifications (well-formedness),Passed,00:00:00.1167816,162112,5
OrderServices.PlannedOrderTotal (correctness),Passed,00:00:00.1134362,200969,5
PaymentServices.RefreshPrices (well-formedness),Passed,00:00:00.1005899,155259,5
BasketLines.FirstMissingProduct (well-formedness),Passed,00:00:00.0989226,273540,5
StableSort.InsertSorted (correctness),Passed,00:00:00.0984790,205385,5
SpecificationsEvaluator.CreateQueryIgnoresPagination (correctness),Passed,00:00:00.0983422,219991,5
PaymentServices.PaymentServices.Plan (well-formedness),Passed,00:00:00.0974843,164816,5
OrderServices.OrderServices.Plan (well-formedness),Passed,00:00:00.0947173,168760,5
OrderSpecifications.OrderByIdSpec (well-formedness),Passed,00:00:00.0885124,80188,5
Repository.SpecificationByKeyIsGetById (well-formedness),Passed,00:00:00.0849664,103346,5
PaymentServices.RepeatedPaymentUpdates (correctness),Passed,00:00:00.0831493,175331,5
StableSort.SortByKeepsSorted (correctness),Passed,00:00:00.0827808,257743,5
ProductSpecifications.ProductListSpec (well-formedness),Passed,00:00:00.0816552,98538,5
Redis.RedisDatabase.StringGet (well-formedness),Passed,00:00:00.0812045,32911,5
ProductSpecifications.NewProductSpecifications (correctness),Passed,00:00:00.0807770,211392,5
UnitOfWork.UnitOfWork.GetProductRepository (correctness),Passed,00:00:00.0803139,176080,5
StableSort.SortedBy (well-formedness),Passed,00:00:00.0801239,36928,5
OrderSpecifications.OrdersOfUserSpec (well-formedness),Passed,00:00:00.0799772,75055,5
OrderServices.OrderServices.GetDeliveryMethods (correctness),Passed,00:00:00.0798441,157851,5
ProductSpecifications.UnfilteredCountIsAll (correctness),Passed,00:00:00.0796454,156341,5
Store.StoreContext._ctor (correctness),Passed,00:00:00.0795913,202954,5
Repository.GenericRepository.GetById (well-formedness),Passed,00:00:00.0792514,40286,5
OrderSpecifications.OrdersOfUserResult (well-formedness),Passed,00:00:00.0785913,121475,5
SpecificationsEvaluator.WhereUniqueKey (correctness),Passed,00:00:00.0780457,94130,5
Store.StoreContext.SaveChanges (well-formedness),Passed,00:00:00.0730478,144230,5
UnitOfWork.UnitOfWork._ctor (correctness),Passed,00:00:00.0727493,88436,5
Store.FindByKey (well-formedness),Passed,00:00:00.0721773,43875,5
SpecificationsEvaluator.CreateQueryAscending (correctness),Passed,00:00:00.0703897,93927,5
SpecificationsEvaluator.CreateQueryFilters (correctness),Passed,00:00:00.0698709,94538,5
BasketServices.BasketServices.GetBasket (well-formedness),Passed,00:00:00.0695785,75075,5
ProductQuery.ClampPageSize (well-formedness),Passed,00:00:00.0690031,7068,5
OrderSpecifications.NewOrderSpecificationById (correctness),Passed,00:00:00.0689137,120736,5
ProductQuery.ClampPageSizeIdempotent (correctness),Passed,00:00:00.0689114,4982,5
SpecificationsEvaluator.CreateQueryBothKeys (correctness),Passed,00:00:00.0684793,107379,5
PaymentServices.RepeatedPaymentUpdates (well-formedness),Passed,00:00:00.0681481,133837,5
OrderSpecifications.OrderByIdAtMostOne (correctness),Passed,00:00:00.0679174,190982,5
StableSort.BeforeTransitive (correctness),Passed,00:00:00.0677743,42457,5
SpecificationsEvaluator.WhereNone (correctness),Passed,00:00:00.0675399,41712,5
OrderServices.OrderServices.ConvertItems (well-formedness),Passed,00:00:00.0671545,85858,5
ProductSpecifications.CountMatchesListing (correctness),Passed,00:00:00.0668854,123744,5
OrderServices.OrderServices.GetAllOrders (well-formedness),Passed,00:00:00.0666378,166762,5
UnitOfWork.UnitOfWork.SaveChanges (correctness),Passed,00:00:00.0659996,174543,5
Store.ApplyChangeKeepsKeysUnique (correctness),Passed,00:00:00.0649522,141504,5
ProductSpecifications.ProductByIdSpec (well-formedness),Passed,00:00:00.0648950,106535,5
Domain.GetTotalMonotone (correctness),Passed,00:00:00.0647955,37065,5
ProductSpecifications.ProductCountSpec (well-formedness),Passed,00:00:00.0646977,81909,5
Specifications.BaseSpecification.View (well-formedness),Passed,00:00:00.0635634,32419,5
PaymentServices.PaymentAmount (well-formedness),Passed,00:00:00.0631252,79352,5
PaymentServices.PaymentServices.Valid (well-formedness),Passed,00:00:00.0630723,140828,5
UnitOfWork.UnitOfWork.GetOrderRepository (correctness),Passed,00:00:00.0626435,166259,5
UnitOfWork.UnitOfWork.SaveChanges (well-formedness),Passed,00:00:00.0625657,153987,5
Repository.GenericRepository.Add (well-formedness),Passed,00:00:00.0625046,22723,5
ProductSpecifications.NewCountProductSpecifications (correctness),Passed,00:00:00.0617216,98859,5
CacheRepository.CacheRepository.Set (well-formedness),Passed,00:00:00.0611193,52344,5
Store.AddedIsFound (correctness),Passed,00:00:00.0599072,75843,5
UnitOfWork.UnitOfWork.GetDeliveryMethodRepository (correctness),Passed,00:00:00.0593069,168583,5
CacheRepository.CacheRepository.Get (well-formedness),Passed,00:00:00.0589971,41367,5
StableSort.SortByKeepsTies (correctness),Passed,00:00:00.0573854,137026,5
SpecificationsEvaluator.CreateQueryPermutesFiltered (correctness),Passed,00:00:00.0562744,85788,5
Specifications.BaseSpecification.AddOrderByDesc (correctness),Passed,00:00:00.0556326,24206,5
OrderSpecifications.OrderWithPaymentIntentResult (correctness),Passed,00:00:00.0553819,145778,5
Store.ApplySingleInsert (correctness),Passed,00:00:00.0553265,63210,5
SpecificationsEvaluator.CreateQueryAscending (well-formedness),Passed,00:00:00.0551511,79622,5
SpecificationsEvaluator.CreateQueryShape (correctness),Passed,00:00:00.0550773,82429,5
PaymentServices.AmountIsWholeHundreds (well-formedness),Passed,00:00:00.0548100,43083,5
BasketRepository.BasketRepository.CreateUpdateBasket (correctness),Passed,00:00:00.0521099,110433,5
ProductSpecifications.NewProductSpecificationsById (correctness),Passed,00:00:00.0517784,140636,5
SpecificationsEvaluator.Where (well-formedness),Passed,00:00:00.0514456,139052,5
Ordering.KeyLeAntisymmetric (correctness),Passed,00:00:00.0513486,28265,5
BasketServices.BasketServices._ctor (correctness),Passed,00:00:00.0513078,6775,5
OrderServices.OrderServices.GetOrderById (well-formedness),Passed,00:00:00.0505598,148309,5
OrderServices.PlannedOrderTotal (well-formedness),Passed,00:00:00.0501335,124943,5
SpecificationsEvaluator.CreateQueryFilters (well-formedness),Passed,00:00:00.0489906,77755,5
OrderServices.OrderServices.GetDeliveryMethods (well-formedness),Passed,00:00:00.0476975,132460,5
Store.StoreContext.Applicable (well-formedness),Passed,00:00:00.0474366,76455,5
Domain.GetTotalMonotone (well-formedness),Passed,00:00:00.0473254,39373,5
SpecificationsEvaluator.CreateQueryDescending (well-formedness),Passed,00:00:00.0463115,79487,5
CacheAttribute.CacheAttribute.OnActionExecution (well-formedness),Passed,00:00:00.0458967,132271,5
OrderSpecifications.NewOrderWithPaymentIntentIdSpecification (well-formedness),Passed,00:00:00.0458835,60679,5
OrderSpecifications.NewOrderSpecificationByEmail (correctness),Passed,00:00:00.0455951,102488,5
Repository.UnfilteredIsGetAll (well-formedness),Passed,00:00:00.0454194,84805,5
Repository.UnfilteredIsGetAll (correctness),Passed,00:00:00.0450360,88268,5
StableSort.SortBySorted (correctness),Passed,00:00:00.0448001,56728,5
Ordering.KeyLeTotal (correctness),Passed,00:00:00.0440452,28368,5
StableSort.SortedGivesTiesOrdered (correctness),Passed,00:00:00.0433319,50525,5
BasketServices.BasketServices.CreateOrUpdateBasket (correctness),Passed,00:00:00.0419595,120955,5
OrderServices.OrderServices.Valid (well-formedness),Passed,00:00:00.0414118,125737,5
StableSort.Insert (well-formedness),Passed,00:00:00.0409952,123768,5
OrderServices.SubTotalOfBasket (correctness),Passed,00:00:00.0401940,62555,5
SpecificationsEvaluator.CreateQueryUnfiltered (correctness),Passed,00:00:00.0395227,79182,5
SpecificationsEvaluator.Ordered (well-formedness),Passed,00:00:00.0388167,69144,5
StableSort.SortBy (well-formedness),Passed,00:00:00.0386122,92170,5
Store.RemoveKeyIsSubsequence (correctness),Passed,00:00:00.0376700,125596,5
SpecificationsEvaluator.CreateQueryDescending (correctness),Passed,00:00:00.0372999,92121,5
BasketRepository.BasketRepository.CreateUpdateBasket (well-formedness),Passed,00:00:00.0370950,83032,5
PaymentServices.RefreshPricesIdempotent (well-formedness),Passed,00:00:00.0369653,78927,5
SpecificationsEvaluator.CreateQueryMembers (correctness),Passed,00:00:00.0369138,84820,5
SpecificationsEvaluator.CreateQueryBothKeys (well-formedness),Passed,00:00:00.0367326,87832,5
SpecificationsEvaluator.CreateQueryMembers (well-formedness),Passed,00:00:00.0365712,77292,5
OrderServices.OrderItemsFor (well-formedness),Passed,00:00:00.0360164,52449,5
OrderServices.OrderServices.Commits (well-formedness),Passed,00:00:00.0360125,47547,5
ProductSpecifications.NewProductSpecifications (well-formedness),Passed,00:00:00.0347975,92300,5
OrderSpecifications.NewOrderSpecificationById (well-formedness),Passed,00:00:00.0345150,72528,5
ProductSpecifications.NewProductSpecificationsById (well-formedness),Passed,00:00:00.0335772,88807,5
PaymentServices.PaymentServices.RefreshItemPrices (well-formedness),Passed,00:00:00.0330470,87976,5
ProductSpecifications.NewCountProductSpecifications (well-formedness),Passed,00:00:00.0325647,92834,5
SpecificationsEvaluator.SameCriteriaSameCount (correctness),Passed,00:00:00.0323177,82381,5
BasketRepository.BasketRepository.DeleteBasket (well-formedness),Passed,00:00:00.0322144,55010,5
BasketRepository.BasketRepository.GetBasket (well-formedness),Passed,00:00:00.0320330,61165,5
BasketRepository.BasketRepository.DeleteBasket (correctness),Passed,00:00:00.0315564,73087,5
Store.ApplyAllKeepsKeysUnique (correctness),Passed,00:00:00.0314089,72336,5
CacheAttribute.SortedHeadsEqual (correctness),Passed,00:00:00.0310361,78637,5
BasketServices.BasketServices.DeleteBasket (correctness),Passed,00:00:00.0309488,83354,5
CacheAttribute.SortedHeadLeast (well-formedness),Passed,00:00:00.0309276,43721,5
BasketServices.BasketServices.DeleteBasket (well-formedness),Passed,00:00:00.0307403,75118,5
BasketServices.BasketServices.CreateOrUpdateBasket (well-formedness),Passed,00:00:00.0306891,83322,5
PaymentServices.AmountInCents (correctness),Passed,00:00:00.0306141,177815,5
Store.ApplyChange (well-formedness),Passed,00:00:00.0305316,66572,5
OrderSpecifications.OrderWithPaymentIntentSpec (well-formedness),Passed,00:00:00.0301747,68281,5
UnitOfWork.UnitOfWork.GetProductRepository (well-formedness),Passed,00:00:00.0296912,83735,5
CacheAttribute.CacheKeyIgnoresArrivalOrder (correctness),Passed,00:00:00.0293623,76064,5
PaymentServices.RefreshPricesIdempotent (correctness),Passed,00:00:00.0291110,59105,5
PaymentServices.AmountIsWholeHundreds (correctness),Passed,00:00:00.0290942,65668,5
UnitOfWork.UnitOfWork.GetOrderRepository (well-formedness),Passed,00:00:00.0282275,83735,5
Redis.RedisDatabase.StringSet (well-formedness),Passed,00:00:00.0281410,42867,5
UnitOfWork.UnitOfWork.GetDeliveryMethodRepository (well-formedness),Passed,00:00:00.0274145,83735,5
Store.AddedIsFound (well-formedness),Passed,00:00:00.0272991,57123,5
Redis.RedisDatabase.StringSet (correctness),Passed,00:00:00.0267596,62655,5
ProductSpecifications.SearchIgnoresCase (correctness),Passed,00:00:00.0267120,62546,5
CacheRepository.CacheRepository.Set (correctness),Passed,00:00:00.0262432,56332,5
SpecificationsEvaluator.IncludeAllKeepsRows (correctness),Passed,00:00:00.0260945,63837,5
OrderSpecifications.NewOrderWithPaymentIntentIdSpecification (correctness),Passed,00:00:00.0260857,67370,5
CacheAttribute.CacheKeyOf (well-formedness),Passed,00:00:00.0259503,67728,5
SpecificationsEvaluator.WhereIsSubsequence (correctness),Passed,00:00:00.0256010,68104,5
Redis.RedisDatabase.KeyDelete (correctness),Passed,00:00:00.0254820,54976,5
ProductQuery.ProductQueryParam._ctor (correctness),Passed,00:00:00.0253947,24490,5
Store.ApplyAll (well-formedness),Passed,00:00:00.0250033,58162,5
Store.RemoveKey (well-formedness),Passed,00:00:00.0247311,54299,5
Store.StoreContext._ctor (well-formedness),Passed,00:00:00.0246615,63855,5
UnitOfWork.UnitOfWork.DomainTypesOnly (well-formedness),Passed,00:00:00.0244228,64965,5
Store.StoreContext.Valid (well-formedness),Passed,00:00:00.0243649,58648,5
BasketItemValidation.ValidBasketItemBounds (correctness),Passed,00:00:00.0240907,44200,5
OrderSpecifications.NewOrderSpecificationByEmail (well-formedness),Passed,00:00:00.0240685,66557,5
UnitOfWork.UnitOfWork.Valid (well-formedness),Passed,00:00:00.0240315,52773,5
Redis.RedisDatabase.KeyDelete (well-formedness),Passed,00:00:00.0236103,35993,5
SpecificationsEvaluator.Filtered (well-formedness),Passed,00:00:00.0234840,62162,5
UnitOfWork.UnitOfWork.Serves (well-formedness),Passed,00:00:00.0234214,42493,5
Store.ApplyAllKeepsKeysUnique (well-formedness),Passed,00:00:00.0232809,58511,5
CacheAttribute.SegmentsAppend (correctness),Passed,00:00:00.0231090,90802,5
CacheAttribute.SortedQuery (well-formedness),Passed,00:00:00.0229225,58010,5
ProductSpecifications.ProductCriteria (well-formedness),Passed,00:00:00.0229159,51404,5
ProductSpecifications.NoFilterMatchesAll (correctness),Passed,00:00:00.0228651,45770,5
Store.ApplyChangeKeepsKeysUnique (well-formedness),Passed,00:00:00.0222440,55458,5
BasketRepository.BasketRepository._ctor (correctness),Passed,00:00:00.0221675,37525,5
Repository.GenericRepository.Delete (correctness),Passed,00:00:00.0216733,23476,5
CacheAttribute.SortedTail (well-formedness),Passed,00:00:00.0216696,41493,5
StableSort.TiesOrderedBy (well-formedness),Passed,00:00:00.0214412,38549,5
BasketItemValidation.ValidationErrors (well-formedness),Passed,00:00:00.0212928,46651,5
CacheAttribute.SortedHeadsEqual (well-formedness),Passed,00:00:00.0208916,54125,5
CacheAttribute.SortedHeadLeast (correctness),Passed,00:00:00.0208244,55865,5
CacheAttribute.SortedTail (correctness),Passed,00:00:00.0205175,54242,5
CacheAttribute.DistinctKeysTail (correctness),Passed,00:00:00.0201045,60756,5
Repository.GenericRepository.Update (correctness),Passed,00:00:00.0200343,23476,5
Repository.GenericRepository._ctor (correctness),Passed,00:00:00.0200125,10458,5
Repository.GenericRepository.Update (well-formedness),Passed,00:00:00.0194841,22723,5
Redis.RedisDatabase._ctor (correctness),Passed,00:00:00.0191259,21748,5
OrderServices.SubTotal (well-formedness),Passed,00:00:00.0187457,15488,5
PaymentServices.AmountInCents (well-formedness),Passed,00:00:00.0180727,44913,5
Store.ReplaceKey (well-formedness),Passed,00:00:00.0177374,39042,5
ProductQuery.ProductQueryParam.SetPageSize (well-formedness),Passed,00:00:00.0175201,7982,5
ProductSpecifications.ToLower (well-formedness),Passed,00:00:00.0172706,21244,5
BasketItemValidation.ValidationIgnoresIdentity (correctness),Passed,00:00:00.0170363,37529,5
ProductSpecifications.NoFilterMatchesAll (well-formedness),Passed,00:00:00.0169433,43557,5
Ordering.StrLeAntisymmetric (correctness),Passed,00:00:00.0166077,31947,5
Repository.GenericRepository.Delete (well-formedness),Passed,00:00:00.0165535,22723,5
Ordering.StrLeTotal (correctness),Passed,00:00:00.0164725,19706,5
PaymentServices.DivBounds (correctness),Passed,00:00:00.0162971,17603,5
PaymentServices.Repriced (well-formedness),Passed,00:00:00.0160529,39617,5
Repository.GenericRepository.GetAll (well-formedness),Passed,00:00:00.0159778,13334,5
Store.DbSet._ctor (correctness),Passed,00:00:00.0158858,39296,5
StableSort.BeforeTotal (correctness),Passed,00:00:00.0158443,32787,5
Ordering.KeyLeTransitive (correctness),Passed,00:00:00.0156204,33208,5
Domain.NewOrder (well-formedness),Passed,00:00:00.0155039,26999,5
Specifications.BaseSpecification._ctor (correctness),Passed,00:00:00.0154759,36878,5
Domain.GetTotal (well-formedness),Passed,00:00:00.0146781,34776,5
PaymentServices.Wrap64 (well-formedness),Passed,00:00:00.0145258,50379,5
Ordering.KeyLeReflexive (correctness),Passed,00:00:00.0144425,25677,5
PictureUrl.OrderItemPictureUrl (well-formedness),Passed,00:00:00.0136450,34478,5
Specifications.BaseSpecification.AddOrderBy (well-formedness),Passed,00:00:00.0130992,22756,5
ProductSpecifications.ToLowerIdempotent (correctness),Passed,00:00:00.0130407,28563,5
Specifications.BaseSpecification.AddOrderBy (correctness),Passed,00:00:00.0128595,24206,5
Repository.GenericRepository.Add (correctness),Passed,00:00:00.0125610,23476,5
Store.DbSet.Stage (correctness),Passed,00:00:00.0124574,21617,5
OrderServices.OrderServices._ctor (correctness),Passed,00:00:00.0118427,8779,5
PaymentServices.TruncDiv (well-formedness),Passed,00:00:00.0118106,24562,5
CacheAttribute.Segments (well-formedness),Passed,00:00:00.0114400,20582,5
OrderServices.OrderServices.NothingStaged (well-formedness),Passed,00:00:00.0111629,30375,5
BasketLines.BasketTotal (well-formedness),Passed,00:00:00.0109576,18757,5
SpecificationsEvaluator.IncludeAll (well-formedness),Passed,00:00:00.0108314,23748,5
Specifications.BaseSpecification.AddInclude (correctness),Passed,00:00:00.0108150,16386,5
ProductQuery.ProductQueryParam.SetPageSize (correctness),Passed,00:00:00.0101558,10959,5
PaymentServices.ItemsChargeIsHundredfoldTotal (correctness),Passed,00:00:00.0101193,24675,5
CacheAttribute.CacheAttribute._ctor (correctness),Passed,00:00:00.0100705,24595,5
Ordering.StrLeReflexive (correctness),Passed,00:00:00.0099233,14375,5
SpecificationsEvaluator.IsSubsequence (well-formedness),Passed,00:00:00.0098270,17328,5
Ordering.StrLeTransitive (correctness),Passed,00:00:00.0098249,23910,5
PaymentServices.ItemsCharge (well-formedness),Passed,00:00:00.0097202,18832,5
ProductSpecifications.LowerChar (well-formedness),Passed,00:00:00.0097148,6538,5
PictureUrl.ResolvePictureUrl (well-formedness),Passed,00:00:00.0096922,24251,5
Specifications.BaseSpecification.AddOrderByDesc (well-formedness),Passed,00:00:00.0096508,22756,5
Specifications.BaseSpecification.AddInclude (well-formedness),Passed,00:00:00.0093414,15457,5
Store.DbSet.Valid (well-formedness),Passed,00:00:00.0092930,23804,5
Store.StoreContext.PendingCount (well-formedness),Passed,00:00:00.0086095,22290,5
CacheAttribute.DistinctKeysTail (well-formedness),Passed,00:00:00.0081287,21802,5
Domain.UniqueKeys (well-formedness),Passed,00:00:00.0079336,16859,5
Ordering.StrLe (well-formedness),Passed,00:00:00.0078823,16749,5
Store.DbSet.Stage (well-formedness),Passed,00:00:00.0075942,18569,5
PaymentServices.DivBounds (well-formedness),Passed,00:00:00.0074528,4873,5
ProductSpecifications.Contains (well-formedness),Passed,00:00:00.0074330,14155,5
CacheRepository.CacheRepository._ctor (correctness),Passed,00:00:00.0057194,6777,5
PictureUrl.BaseOf (well-formedness),Passed,00:00:00.0055732,8080,5
PaymentServices.PaymentServices._ctor (correctness),Passed,00:00:00.0052830,8778,5
