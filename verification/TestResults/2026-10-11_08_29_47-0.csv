TestResult.DisplayName,TestResult.Outcome,TestResult.Duration,TestResult.ResourceCount,RandomSeed
OrderServices.OrderServices.CreateOrder (correctness),Passed,00:00:00.8728178,2115258,3
PaymentServices.PaymentServices.CreateOrUpdatePaymentIntent (correctness),Passed,00:00:00.5674655,1345221,3
OrderServices.OrderServices.GetOrderById (correctness),Passed,00:00:00.3564459,908337,3
CacheAttribute.SortedDictionaryUnique (correctness),Passed,00:00:00.3174914,1016547,3
OrderSpecifications.OrdersOfUserResult (correctness),Passed,00:00:00.2548582,595556,3
Repository.SpecificationByKeyIsGetById (correctness),Passed,00:00:00.2133882,541304,3
CacheAttribute.CreateCacheKey (correctness),Passed,00:00:00.1994744,516044,3
OrderServices.OrderServices.ConvertItems (correctness),Passed,00:00:00.1822932,623834,3
PaymentServices.PlanPayment (well-formedness),Passed,00:00:00.1816355,306983,3
StableSort.InsertKeepsTies (correctness),Passed,00:00:00.1800196,536825,3
Store.StoreContext.SaveChanges (correctness),Passed,00:00:00.1684629,438845,3
PaymentServices.PaymentServices.RefreshItemPrices (correctness),Passed,00:00:00.1556711,389405,3
OrderServices.OrderServices.GetAllOrders (correctness),Passed,00:00:00.1521701,372708,3
OrderServices.PlanOrder (well-formedness),Passed,00:00:00.1492246,304926,3
UnitOfWork.UnitOfWork.GetRepository (correctness),Passed,00:00:00.1478652,403128,3
CacheAttribute.CacheAttribute.OnActionExecution (correctness),Passed,00:00:00.1444760,275466,3
StableSort.SortedBy (well-formedness),Passed,00:00:00.1377259,36928,3
OrderServices.OrderServices.CreateOrder (well-formedness),Passed,00:00:00.1318004,302429,3
BasketLines.FirstMissingProduct (well-formedness),Passed,00:00:00.1110046,296347,3
OrderSpecifications.OrdersOfUserResult (well-formedness),Passed,00:00:00.1100453,121583,3
PaymentServices.PaymentServices.CreateOrUpdatePaymentIntent (well-formedness),Passed,00:00:00.1034584,277413,3
SpecificationsEvaluator.CreateQueryIgnoresPagination (correctness),Passed,00:00:00.1009370,219616,3
OrderServices.PlannedOrderTotal (correctness),Passed,00:00:00.0996054,197091,3
StableSort.InsertSorted (correctness),Passed,00:00:00.0983809,206742,3
Store.FindByKey (well-formedness),Passed,00:00:00.0961011,43910,3
StableSort.SortByKeepsSorted (correctness),Passed,00:00:00.0927629,258588,3
OrderSpecifications.OrdersOfUserSpec (well-formedness),Passed,00:00:00.0919727,75262,3
OrderSpecifications.OrderByIdSpec (well-formedness),Passed,00:00:00.0891212,80566,3
PaymentServices.PaymentServices.Plan (well-formedness),Passed,00:00:00.0888075,164841,3
CacheAttribute.CacheKeyOf (well-formedness),Passed,00:00:00.0886154,67586,3
Repository.GenericRepository.GetByIdWithSpecifications (well-formedness),Passed,00:00:00.0884009,152444,3
SpecificationsEvaluator.WhereUniqueKey (correctness),Passed,00:00:00.0854756,96615,3
ProductSpecifications.ProductListSpec (well-formedness),Passed,00:00:00.0854153,98251,3
ProductSpecifications.NewProductSpecifications (correctness),Passed,00:00:00.0841745,213391,3
Repository.GenericRepository.GetAllWithSpecifications (well-formedness),Passed,00:00:00.0832733,159562,3
Repository.SpecificationByKeyIsGetById (well-formedness),Passed,00:00:00.0824661,103433,3
ProductSpecifications.UnfilteredCountIsAll (correctness),Passed,00:00:00.0809150,156564,3
BasketRepository.BasketRepository.DeleteBasket (well-formedness),Passed,00:00:00.0802264,55019,3
UnitOfWork.UnitOfWork.SaveChanges (well-formedness),Passed,00:00:00.0801570,153999,3
OrderServices.OrderServices.Plan (well-formedness),Passed,00:00:00.0801527,168810,3
UnitOfWork.UnitOfWork.GetOrderRepository (correctness),Passed,00:00:00.0771932,166841,3
UnitOfWork.UnitOfWork.GetRepository (well-formedness),Passed,00:00:00.0770906,115179,3
BasketRepository.BasketRepository.DeleteBasket (correctness),Passed,00:00:00.0757212,73076,3
Redis.RedisDatabase.StringGet (well-formedness),Passed,00:00:00.0753510,32912,3
PaymentServices.RefreshPrices (well-formedness),Passed,00:00:00.0747596,154792,3
ProductQuery.ClampPageSizeIdempotent (correctness),Passed,00:00:00.0746385,4981,3
ProductQuery.ClampPageSize (well-formedness),Passed,00:00:00.0745662,7067,3
OrderServices.OrderServices.GetDeliveryMethods (correctness),Passed,00:00:00.0739160,157298,3
OrderSpecifications.OrderByIdAtMostOne (correctness),Passed,00:00:00.0735655,182470,3
BasketServices.BasketServices.GetBasket (well-formedness),Passed,00:00:00.0733162,75134,3
UnitOfWork.UnitOfWork.SaveChanges (correctness),Passed,00:00:00.0733090,175755,3
PaymentServices.RepeatedPaymentUpdates (well-formedness),Passed,00:00:00.0722130,133834,3
Store.StoreContext._ctor (correctness),Passed,00:00:00.0713216,165044,3
SpecificationsEvaluator.CreateQueryFilters (correctness),Passed,00:00:00.0712780,94841,3
Store.StoreContext.SaveChanges (well-formedness),Passed,00:00:00.0702464,144243,3
UnitOfWork.UnitOfWork.GetProductRepository (correctness),Passed,00:00:00.0702392,175974,3
SpecificationsEvaluator.CreateQueryBothKeys (correctness),Passed,00:00:00.0695939,107238,3
Repository.GenericRepository.Add (well-formedness),Passed,00:00:00.0694576,22729,3
ProductSpecifications.ProductCountSpec (well-formedness),Passed,00:00:00.0694573,81208,3
ProductSpecifications.CountMatchesListing (correctness),Passed,00:00:00.0688806,123640,3
UnitOfWork.UnitOfWork._ctor (correctness),Passed,00:00:00.0688134,88472,3
Repository.GenericRepository.GetById (well-formedness),Passed,00:00:00.0680548,40285,3
SpecificationsEvaluator.WhereNone (correctness),Passed,00:00:00.0678214,41706,3
Specifications.BaseSpecification.View (well-formedness),Passed,00:00:00.0653180,32425,3
OrderServices.SubTotalOfBasket (correctness),Passed,00:00:00.0629634,62794,3
CacheRepository.CacheRepository.Set (well-formedness),Passed,00:00:00.0628843,52507,3
BasketServices.BasketServices.DeleteBasket (correctness),Passed,00:00:00.0618794,83251,3
OrderSpecifications.NewOrderSpecificationById (correctness),Passed,00:00:00.0611022,107588,3
SpecificationsEvaluator.CreateQueryFilters (well-formedness),Passed,00:00:00.0606575,77761,3
Store.AddedIsFound (correctness),Passed,00:00:00.0603805,73569,3
BasketRepository.BasketRepository.CreateUpdateBasket (well-formedness),Passed,00:00:00.0602709,82955,3
PaymentServices.PaymentAmount (well-formedness),Passed,00:00:00.0599035,86750,3
CacheRepository.CacheRepository.Get (well-formedness),Passed,00:00:00.0594653,41361,3
ProductSpecifications.NewCountProductSpecifications (correctness),Passed,00:00:00.0591593,98830,3
Store.ApplySingleInsert (correctness),Passed,00:00:00.0588327,63193,3
OrderServices.OrderServices.Valid (well-formedness),Passed,00:00:00.0587910,126554,3
PaymentServices.RepeatedPaymentUpdates (correctness),Passed,00:00:00.0586452,172323,3
OrderServices.OrderServices.GetAllOrders (well-formedness),Passed,00:00:00.0584225,166785,3
OrderSpecifications.NewOrderSpecificationById (well-formedness),Passed,00:00:00.0583982,72547,3
ProductSpecifications.ProductByIdSpec (well-formedness),Passed,00:00:00.0578874,106100,3
BasketRepository.BasketRepository.CreateUpdateBasket (correctness),Passed,00:00:00.0569959,125703,3
OrderServices.OrderServices.GetOrderById (well-formedness),Passed,00:00:00.0564094,148384,3
Domain.GetTotalMonotone (correctness),Passed,00:00:00.0560545,38271,3
Specifications.BaseSpecification.AddOrderByDesc (correctness),Passed,00:00:00.0557473,24203,3
SpecificationsEvaluator.CreateQueryPermutesFiltered (correctness),Passed,00:00:00.0547444,85858,3
SpecificationsEvaluator.CreateQueryAscending (correctness),Passed,00:00:00.0547410,93623,3
UnitOfWork.UnitOfWork.GetDeliveryMethodRepository (correctness),Passed,00:00:00.0537251,167648,3
OrderSpecifications.OrderWithPaymentIntentResult (correctness),Passed,00:00:00.0524612,144903,3
Store.ApplyChangeKeepsKeysUnique (correctness),Passed,00:00:00.0523988,141191,3
Ordering.KeyLeAntisymmetric (correctness),Passed,00:00:00.0522892,28247,3
CacheAttribute.SortedHeadsEqual (correctness),Passed,00:00:00.0513479,78619,3
Store.StoreContext.Applicable (well-formedness),Passed,00:00:00.0504215,76498,3
Ordering.KeyLeTotal (correctness),Passed,00:00:00.0504019,28345,3
ProductSpecifications.NewProductSpecificationsById (correctness),Passed,00:00:00.0503181,125859,3
Domain.GetTotalMonotone (well-formedness),Passed,00:00:00.0497981,39430,3
SpecificationsEvaluator.CreateQueryAscending (well-formedness),Passed,00:00:00.0487939,79720,3
SpecificationsEvaluator.Where (well-formedness),Passed,00:00:00.0477429,126122,3
CacheAttribute.CacheAttribute.OnActionExecution (well-formedness),Passed,00:00:00.0477365,132359,3
PaymentServices.PaymentServices.Valid (well-formedness),Passed,00:00:00.0464163,141125,3
OrderServices.OrderServices.GetDeliveryMethods (well-formedness),Passed,00:00:00.0460592,132460,3
PaymentServices.PaymentServices.RefreshItemPrices (well-formedness),Passed,00:00:00.0458026,87957,3
OrderServices.PlannedOrderTotal (well-formedness),Passed,00:00:00.0457366,124939,3
StableSort.SortByKeepsTies (correctness),Passed,00:00:00.0456654,137066,3
Store.RemoveKeyIsSubsequence (correctness),Passed,00:00:00.0455635,137981,3
StableSort.SortBySorted (correctness),Passed,00:00:00.0453557,56744,3
OrderSpecifications.NewOrderSpecificationByEmail (correctness),Passed,00:00:00.0447465,101775,3
OrderSpecifications.NewOrderWithPaymentIntentIdSpecification (well-formedness),Passed,00:00:00.0440648,60682,3
StableSort.Insert (well-formedness),Passed,00:00:00.0440173,104753,3
BasketServices.BasketServices.CreateOrUpdateBasket (correctness),Passed,00:00:00.0434008,121592,3
PaymentServices.ItemsChargeIsHundredfoldTotal (correctness),Passed,00:00:00.0422521,24872,3
SpecificationsEvaluator.CreateQueryDescending (well-formedness),Passed,00:00:00.0420973,79570,3
Repository.UnfilteredIsGetAll (correctness),Passed,00:00:00.0414386,88261,3
SpecificationsEvaluator.CreateQueryMembers (correctness),Passed,00:00:00.0400041,84824,3
SpecificationsEvaluator.CreateQueryDescending (correctness),Passed,00:00:00.0399364,93161,3
OrderServices.OrderServices.Commits (well-formedness),Passed,00:00:00.0389775,47547,3
Repository.UnfilteredIsGetAll (well-formedness),Passed,00:00:00.0388340,84833,3
OrderSpecifications.NewOrderSpecificationByEmail (well-formedness),Passed,00:00:00.0385608,66567,3
StableSort.SortedGivesTiesOrdered (correctness),Passed,00:00:00.0374862,50425,3
BasketRepository.BasketRepository.GetBasket (well-formedness),Passed,00:00:00.0373895,61159,3
SpecificationsEvaluator.CreateQueryBothKeys (well-formedness),Passed,00:00:00.0372221,87786,3
StableSort.SortBy (well-formedness),Passed,00:00:00.0370307,92535,3
BasketServices.BasketServices.CreateOrUpdateBasket (well-formedness),Passed,00:00:00.0366296,83324,3
SpecificationsEvaluator.SameCriteriaSameCount (correctness),Passed,00:00:00.0362453,82203,3
SpecificationsEvaluator.CreateQueryUnfiltered (correctness),Passed,00:00:00.0358542,79222,3
ProductSpecifications.NewProductSpecifications (well-formedness),Passed,00:00:00.0357249,92319,3
PaymentServices.AmountInCents (correctness),Passed,00:00:00.0349207,157847,3
OrderServices.OrderServices.ConvertItems (well-formedness),Passed,00:00:00.0344577,85845,3
SpecificationsEvaluator.CreateQueryMembers (well-formedness),Passed,00:00:00.0342561,77765,3
SpecificationsEvaluator.CreateQueryShape (correctness),Passed,00:00:00.0338879,82450,3
SpecificationsEvaluator.Filtered (well-formedness),Passed,00:00:00.0337337,62215,3
ProductSpecifications.NewCountProductSpecifications (well-formedness),Passed,00:00:00.0336280,92835,3
ProductSpecifications.NewProductSpecificationsById (well-formedness),Passed,00:00:00.0330700,88816,3
UnitOfWork.UnitOfWork.GetDeliveryMethodRepository (well-formedness),Passed,00:00:00.0330569,83664,3
Redis.RedisDatabase.StringSet (correctness),Passed,00:00:00.0324665,68922,3
ProductSpecifications.SearchIgnoresCase (correctness),Passed,00:00:00.0295659,62454,3
OrderSpecifications.OrderWithPaymentIntentSpec (well-formedness),Passed,00:00:00.0294552,67789,3
CacheAttribute.CacheKeyIgnoresArrivalOrder (correctness),Passed,00:00:00.0290489,76054,3
BasketServices.BasketServices.DeleteBasket (well-formedness),Passed,00:00:00.0290032,75119,3
Store.ApplyChange (well-formedness),Passed,00:00:00.0289251,66593,3
SpecificationsEvaluator.Ordered (well-formedness),Passed,00:00:00.0287084,69160,3
BasketRepository.BasketRepository._ctor (correctness),Passed,00:00:00.0285986,37519,3
Store.ApplyAllKeepsKeysUnique (correctness),Passed,00:00:00.0283726,72095,3
Store.StoreContext._ctor (well-formedness),Passed,00:00:00.0282483,63943,3
OrderSpecifications.NewOrderWithPaymentIntentIdSpecification (correctness),Passed,00:00:00.0281813,67361,3
SpecificationsEvaluator.WhereIsSubsequence (correctness),Passed,00:00:00.0280455,67908,3
UnitOfWork.UnitOfWork.GetProductRepository (well-formedness),Passed,00:00:00.0275877,83664,3
UnitOfWork.UnitOfWork.GetOrderRepository (well-formedness),Passed,00:00:00.0272223,83664,3
CacheAttribute.DistinctKeysTail (well-formedness),Passed,00:00:00.0271509,21804,3
UnitOfWork.UnitOfWork.DomainTypesOnly (well-formedness),Passed,00:00:00.0269111,64912,3
Store.ApplyAll (well-formedness),Passed,00:00:00.0269030,58170,3
Store.ApplyChangeKeepsKeysUnique (well-formedness),Passed,00:00:00.0262030,55541,3
Repository.GenericRepository.Update (correctness),Passed,00:00:00.0251759,23482,3
PaymentServices.RefreshPricesIdempotent (well-formedness),Passed,00:00:00.0249709,66369,3
CacheRepository.CacheRepository.Set (correctness),Passed,00:00:00.0249497,56055,3
CacheAttribute.SortedTail (correctness),Passed,00:00:00.0249359,54455,3
Store.RemoveKey (well-formedness),Passed,00:00:00.0248409,54929,3
OrderServices.OrderItemsFor (well-formedness),Passed,00:00:00.0247623,52718,3
PaymentServices.AmountIsWholeHundreds (correctness),Passed,00:00:00.0247407,70520,3
Redis.RedisDatabase.KeyDelete (correctness),Passed,00:00:00.0246876,54578,3
Store.ReplaceKey (well-formedness),Passed,00:00:00.0246242,40456,3
CacheAttribute.SortedHeadsEqual (well-formedness),Passed,00:00:00.0242164,54219,3
Store.StoreContext.Valid (well-formedness),Passed,00:00:00.0241123,58655,3
Store.ApplyAllKeepsKeysUnique (well-formedness),Passed,00:00:00.0235741,58388,3
UnitOfWork.UnitOfWork.Valid (well-formedness),Passed,00:00:00.0235634,52768,3
CacheAttribute.SortedQuery (well-formedness),Passed,00:00:00.0234688,57860,3
PaymentServices.RefreshPricesIdempotent (correctness),Passed,00:00:00.0231629,59099,3
CacheAttribute.SortedHeadLeast (correctness),Passed,00:00:00.0231501,55857,3
Store.AddedIsFound (well-formedness),Passed,00:00:00.0231377,57227,3
CacheAttribute.SegmentsAppend (correctness),Passed,00:00:00.0225005,90839,3
UnitOfWork.UnitOfWork.Serves (well-formedness),Passed,00:00:00.0220906,42488,3
ProductSpecifications.ProductCriteria (well-formedness),Passed,00:00:00.0218778,51407,3
PaymentServices.Wrap64 (well-formedness),Passed,00:00:00.0216599,50187,3
Redis.RedisDatabase.StringSet (well-formedness),Passed,00:00:00.0215079,42886,3
ProductQuery.ProductQueryParam._ctor (correctness),Passed,00:00:00.0211285,24496,3
Store.DbSet._ctor (correctness),Passed,00:00:00.0205643,39276,3
CacheAttribute.DistinctKeysTail (correctness),Passed,00:00:00.0204577,60456,3
OrderServices.SubTotal (well-formedness),Passed,00:00:00.0200378,15489,3
OrderServices.OrderServices.NothingStaged (well-formedness),Passed,00:00:00.0195922,30369,3
Redis.RedisDatabase.KeyDelete (well-formedness),Passed,00:00:00.0194485,35999,3
StableSort.TiesOrderedBy (well-formedness),Passed,00:00:00.0188710,38656,3
PaymentServices.AmountInCents (well-formedness),Passed,00:00:00.0187747,44928,3
PaymentServices.AmountIsWholeHundreds (well-formedness),Passed,00:00:00.0186350,43086,3
StableSort.BeforeTransitive (correctness),Passed,00:00:00.0181510,42459,3
CacheAttribute.SortedHeadLeast (well-formedness),Passed,00:00:00.0178960,43719,3
SpecificationsEvaluator.IncludeAllKeepsRows (correctness),Passed,00:00:00.0177776,61243,3
ProductSpecifications.NoFilterMatchesAll (correctness),Passed,00:00:00.0176836,45771,3
ProductSpecifications.ToLowerIdempotent (correctness),Passed,00:00:00.0168203,28300,3
CacheAttribute.SortedTail (well-formedness),Passed,00:00:00.0168048,41493,3
ProductSpecifications.NoFilterMatchesAll (well-formedness),Passed,00:00:00.0166861,43558,3
PaymentServices.Repriced (well-formedness),Passed,00:00:00.0164263,39638,3
Repository.GenericRepository.Add (correctness),Passed,00:00:00.0164086,23482,3
Repository.GenericRepository.Delete (well-formedness),Passed,00:00:00.0162647,22729,3
BasketItemValidation.ValidBasketItemBounds (correctness),Passed,00:00:00.0162311,44214,3
StableSort.BeforeTotal (correctness),Passed,00:00:00.0157968,32789,3
BasketItemValidation.ValidationErrors (well-formedness),Passed,00:00:00.0155822,48598,3
Redis.RedisDatabase._ctor (correctness),Passed,00:00:00.0153367,21752,3
Repository.GenericRepository.Update (well-formedness),Passed,00:00:00.0150590,22729,3
Repository.GenericRepository.Delete (correctness),Passed,00:00:00.0149512,23482,3
Specifications.BaseSpecification._ctor (correctness),Passed,00:00:00.0147662,36825,3
Domain.GetTotal (well-formedness),Passed,00:00:00.0146835,34714,3
Domain.NewOrder (well-formedness),Passed,00:00:00.0145260,27188,3
Ordering.StrLeTransitive (correctness),Passed,00:00:00.0143860,23930,3
Ordering.StrLeAntisymmetric (correctness),Passed,00:00:00.0143787,31431,3
BasketItemValidation.ValidationIgnoresIdentity (correctness),Passed,00:00:00.0143618,37661,3
CacheAttribute.Segments (well-formedness),Passed,00:00:00.0141496,20580,3
Ordering.KeyLeTransitive (correctness),Passed,00:00:00.0139557,33270,3
Store.DbSet.Stage (well-formedness),Passed,00:00:00.0138666,18570,3
Ordering.KeyLeReflexive (correctness),Passed,00:00:00.0137405,25711,3
PictureUrl.OrderItemPictureUrl (well-formedness),Passed,00:00:00.0136121,34449,3
Ordering.StrLeReflexive (correctness),Passed,00:00:00.0132236,14376,3
Specifications.BaseSpecification.AddOrderBy (well-formedness),Passed,00:00:00.0130751,22753,3
Specifications.BaseSpecification.AddOrderBy (correctness),Passed,00:00:00.0126730,24203,3
Specifications.BaseSpecification.AddOrderByDesc (well-formedness),Passed,00:00:00.0123595,22753,3
SpecificationsEvaluator.IncludeAll (well-formedness),Passed,00:00:00.0121146,24156,3
PictureUrl.ResolvePictureUrl (well-formedness),Passed,00:00:00.0121083,23716,3
BasketLines.BasketTotal (well-formedness),Passed,00:00:00.0119273,18780,3
Store.StoreContext.PendingCount (well-formedness),Passed,00:00:00.0118987,22289,3
Store.DbSet.Stage (correctness),Passed,00:00:00.0118627,21620,3
PaymentServices.TruncDiv (well-formedness),Passed,00:00:00.0116647,24497,3
ProductSpecifications.LowerChar (well-formedness),Passed,00:00:00.0114369,6522,3
SpecificationsEvaluator.IsSubsequence (well-formedness),Passed,00:00:00.0113003,16223,3
Store.DbSet.Valid (well-formedness),Passed,00:00:00.0109497,23806,3
PaymentServices.ItemsCharge (well-formedness),Passed,00:00:00.0108569,18910,3
ProductQuery.ProductQueryParam.SetPageSize (well-formedness),Passed,00:00:00.0102270,7982,3
CacheAttribute.CacheAttribute._ctor (correctness),Passed,00:00:00.0102059,24593,3
ProductSpecifications.ToLower (well-formedness),Passed,00:00:00.0101756,21379,3
Ordering.StrLeTotal (correctness),Passed,00:00:00.0096120,19718,3
PictureUrl.BaseOf (well-formedness),Passed,00:00:00.0092249,8078,3
ProductSpecifications.Contains (well-formedness),Passed,00:00:00.0090899,14167,3
Specifications.BaseSpecification.AddInclude (well-formedness),Passed,00:00:00.0089336,15467,3
Ordering.StrLe (well-formedness),Passed,00:00:00.0086476,16685,3
Domain.UniqueKeys (well-formedness),Passed,00:00:00.0083210,16857,3
PaymentServices.DivBounds (correctness),Passed,00:00:00.0082139,20481,3
OrderServices.OrderServices._ctor (correctness),Passed,00:00:00.0074429,8776,3
Specifications.BaseSpecification.AddInclude (correctness),Passed,00:00:00.0073930,16384,3
BasketServices.BasketServices._ctor (correctness),Passed,00:00:00.0070348,6775,3
Repository.GenericRepository.GetAll (well-formedness),Passed,00:00:00.0069343,13334,3
Repository.GenericRepository._ctor (correctness),Passed,00:00:00.0065591,10459,3
ProductQuery.ProductQueryParam.SetPageSize (correctness),Passed,00:00:00.0064142,10862,3
PaymentServices.DivBounds (well-formedness),Passed,00:00:00.0059584,4872,3
PaymentServices.PaymentServices._ctor (correctness),Passed,00:00:00.0055191,8776,3
CacheRepository.CacheRepository._ctor (correctness),Passed,00:00:00.0051186,6774,3
