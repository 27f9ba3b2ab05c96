TestResult.DisplayName,TestResult.Outcome,TestResult.Duration,TestResult.ResourceCount,RandomSeed
OrderServices.OrderServices.CreateOrder (correctness),Passed,00:00:00.8903835,2105659,4
CacheAttribute.CreateCacheKey (correctness),Failed,00:00:00.5800653,2061775,4
PaymentServices.PaymentServices.CreateOrUpdatePaymentIntent (correctness),Passed,00:00:00.4990413,1232516,4
Repository.SpecificationByKeyIsGetById (correctness),Passed,00:00:00.3307416,797676,4
SpecificationsEvaluator.WhereUniqueKey (correctness),Passed,00:00:00.2594695,673388,4
OrderSpecifications.OrdersOfUserResult (correctness),Passed,00:00:00.2395753,606652,4
CacheAttribute.SortedDictionaryUnique (correctness),Passed,00:00:00.2260450,723469,4
OrderServices.OrderServices.GetOrderById (correctness),Passed,00:00:00.2057358,439763,4
OrderServices.OrderServices.GetAllOrders (correctness),Passed,00:00:00.2037661,528196,4
PaymentServices.PaymentServices.RefreshItemPrices (correctness),Passed,00:00:00.2027375,575561,4
OrderServices.OrderServices.CreateOrder (well-formedness),Passed,00:00:00.1931281,303231,4
Store.StoreContext.SaveChanges (correctness),Passed,00:00:00.1868629,464736,4
StableSort.InsertKeepsTies (correctness),Passed,00:00:00.1863871,510985,4
OrderServices.OrderServices.ConvertItems (correctness),Passed,00:00:00.1844600,590477,4
PaymentServices.PlanPayment (well-formedness),Passed,00:00:00.1715511,314193,4
OrderServices.PlanOrder (well-formedness),Passed,00:00:00.1390993,319478,4
UnitOfWork.UnitOfWork.GetRepository (correctness),Passed,00:00:00.1372567,389050,4
PaymentServices.PaymentServices.CreateOrUpdatePaymentIntent (well-formedness),Passed,00:00:00.1337129,277326,4
CacheAttribute.CacheAttribute.OnActionExecution (correctness),Passed,00:00:00.1295818,321329,4
Repository.GenericRepository.GetByIdWithSpecifications (well-formedness),Passed,00:00:00.1295360,152513,4
StableSort.InsertSorted (correctness),Passed,00:00:00.1198318,206646,4
Store.RemoveKeyIsSubsequence (correctness),Passed,00:00:00.1181724,471713,4
OrderSpecifications.OrderByIdAtMostOne (correctness),Passed,00:00:00.1094864,189824,4
SpecificationsEvaluator.CreateQueryIgnoresPagination (correctness),Passed,00:00:00.1032242,223034,4
StableSort.SortByKeepsSorted (correctness),Passed,00:00:00.1030039,275248,4
BasketLines.FirstMissingProduct (well-formedness),Passed,00:00:00.1023468,246335,4
OrderServices.PlannedOrderTotal (correctness),Passed,00:00:00.0919858,198491,4
UnitOfWork.UnitOfWork.GetRepository (well-formedness),Passed,00:00:00.0900182,115182,4
OrderSpecifications.OrderByIdSpec (well-formedness),Passed,00:00:00.0860886,80630,4
UnitOfWork.UnitOfWork.SaveChanges (well-formedness),Passed,00:00:00.0859543,153819,4
OrderServices.OrderServices.Plan (well-formedness),Passed,00:00:00.0849177,168760,4
StableSort.SortedBy (well-formedness),Passed,00:00:00.0843927,36934,4
ProductSpecifications.UnfilteredCountIsAll (correctness),Passed,00:00:00.0839395,158330,4
Repository.GenericRepository.GetAllWithSpecifications (well-formedness),Passed,00:00:00.0838096,165193,4
Redis.RedisDatabase.StringGet (well-formedness),Passed,00:00:00.0836118,32911,4
SpecificationsEvaluator.CreateQueryFilters (well-formedness),Passed,00:00:00.0833447,77772,4
OrderSpecifications.OrdersOfUserSpec (well-formedness),Passed,00:00:00.0827335,74871,4
ProductSpecifications.ProductListSpec (well-formedness),Passed,00:00:00.0807274,98115,4
ProductSpecifications.NewProductSpecifications (correctness),Passed,00:00:00.0806661,206891,4
PaymentServices.PaymentServices.Plan (well-formedness),Passed,00:00:00.0793819,164848,4
Repository.GenericRepository.GetById (well-formedness),Passed,00:00:00.0785513,40284,4
Store.FindByKey (well-formedness),Passed,00:00:00.0781462,43992,4
Store.ApplyChangeKeepsKeysUnique (correctness),Passed,00:00:00.0771270,141167,4
UnitOfWork.UnitOfWork.GetOrderRepository (correctness),Passed,00:00:00.0766893,166930,4
BasketServices.BasketServices.GetBasket (well-formedness),Passed,00:00:00.0764942,75050,4
SpecificationsEvaluator.CreateQueryUnfiltered (correctness),Passed,00:00:00.0764024,79332,4
StableSort.BeforeTransitive (correctness),Passed,00:00:00.0761056,42459,4
UnitOfWork.UnitOfWork._ctor (correctness),Passed,00:00:00.0758929,88446,4
Store.StoreContext.SaveChanges (well-formedness),Passed,00:00:00.0744236,143954,4
ProductSpecifications.ProductCountSpec (well-formedness),Passed,00:00:00.0744139,81942,4
CacheAttribute.CacheAttribute.OnActionExecution (well-formedness),Passed,00:00:00.0741483,132352,4
Store.StoreContext._ctor (correctness),Passed,00:00:00.0739474,186408,4
SpecificationsEvaluator.CreateQueryFilters (correctness),Passed,00:00:00.0733157,95085,4
OrderSpecifications.OrdersOfUserResult (well-formedness),Passed,00:00:00.0727584,121818,4
ProductQuery.ClampPageSize (well-formedness),Passed,00:00:00.0725716,7068,4
ProductQuery.ClampPageSizeIdempotent (correctness),Passed,00:00:00.0725028,4982,4
CacheRepository.CacheRepository.Set (well-formedness),Passed,00:00:00.0721457,52312,4
PaymentServices.RefreshPrices (well-formedness),Passed,00:00:00.0715497,154545,4
UnitOfWork.UnitOfWork.GetProductRepository (correctness),Passed,00:00:00.0713707,176251,4
BasketServices.BasketServices.DeleteBasket (correctness),Passed,00:00:00.0710698,87245,4
OrderServices.SubTotalOfBasket (correctness),Passed,00:00:00.0696190,63072,4
SpecificationsEvaluator.CreateQueryBothKeys (correctness),Passed,00:00:00.0683171,107261,4
SpecificationsEvaluator.CreateQueryDescending (correctness),Passed,00:00:00.0682695,92160,4
SpecificationsEvaluator.CreateQueryAscending (correctness),Passed,00:00:00.0666032,93788,4
UnitOfWork.UnitOfWork.GetDeliveryMethodRepository (correctness),Passed,00:00:00.0665601,167761,4
ProductSpecifications.CountMatchesListing (correctness),Passed,00:00:00.0660393,123655,4
ProductSpecifications.ProductByIdSpec (well-formedness),Passed,00:00:00.0652962,106130,4
UnitOfWork.UnitOfWork.SaveChanges (correctness),Passed,00:00:00.0648586,170856,4
BasketRepository.BasketRepository.DeleteBasket (well-formedness),Passed,00:00:00.0647757,55016,4
Repository.UnfilteredIsGetAll (correctness),Passed,00:00:00.0645036,88279,4
SpecificationsEvaluator.CreateQueryPermutesFiltered (correctness),Passed,00:00:00.0638351,88186,4
OrderServices.OrderServices.GetDeliveryMethods (correctness),Passed,00:00:00.0637193,152883,4
Repository.SpecificationByKeyIsGetById (well-formedness),Passed,00:00:00.0636469,103450,4
OrderServices.OrderServices.GetOrderById (well-formedness),Passed,00:00:00.0630558,148882,4
Store.AddedIsFound (correctness),Passed,00:00:00.0622652,73396,4
PaymentServices.RepeatedPaymentUpdates (well-formedness),Passed,00:00:00.0620668,133901,4
CacheRepository.CacheRepository.Get (well-formedness),Passed,00:00:00.0619690,41365,4
PaymentServices.RepeatedPaymentUpdates (correctness),Passed,00:00:00.0617613,172331,4
SpecificationsEvaluator.CreateQueryAscending (well-formedness),Passed,00:00:00.0615191,79778,4
PaymentServices.PaymentAmount (well-formedness),Passed,00:00:00.0612865,79607,4
Specifications.BaseSpecification.View (well-formedness),Passed,00:00:00.0606801,32421,4
OrderSpecifications.NewOrderSpecificationById (correctness),Passed,00:00:00.0603932,107044,4
Store.ApplySingleInsert (correctness),Passed,00:00:00.0593415,63188,4
ProductSpecifications.NewCountProductSpecifications (correctness),Passed,00:00:00.0585951,98818,4
SpecificationsEvaluator.Where (well-formedness),Passed,00:00:00.0568620,131623,4
StableSort.SortBy (well-formedness),Passed,00:00:00.0565978,92661,4
OrderServices.OrderServices.GetAllOrders (well-formedness),Passed,00:00:00.0562330,166739,4
Ordering.KeyLeTotal (correctness),Passed,00:00:00.0545159,28344,4
ProductSpecifications.NewProductSpecifications (well-formedness),Passed,00:00:00.0542140,92315,4
OrderSpecifications.OrderWithPaymentIntentResult (correctness),Passed,00:00:00.0525155,144929,4
BasketServices.BasketServices.CreateOrUpdateBasket (correctness),Passed,00:00:00.0523940,116613,4
StableSort.Insert (well-formedness),Passed,00:00:00.0522441,138236,4
Repository.UnfilteredIsGetAll (well-formedness),Passed,00:00:00.0522260,84840,4
Store.StoreContext.Applicable (well-formedness),Passed,00:00:00.0517609,76438,4
Domain.GetTotalMonotone (well-formedness),Passed,00:00:00.0512374,39459,4
SpecificationsEvaluator.Ordered (well-formedness),Passed,00:00:00.0491015,69140,4
StableSort.SortByKeepsTies (correctness),Passed,00:00:00.0487201,139041,4
Domain.GetTotalMonotone (correctness),Passed,00:00:00.0486857,38262,4
BasketRepository.BasketRepository.CreateUpdateBasket (correctness),Passed,00:00:00.0473289,115846,4
OrderServices.OrderServices.Commits (well-formedness),Passed,00:00:00.0472972,47551,4
BasketRepository.BasketRepository.CreateUpdateBasket (well-formedness),Passed,00:00:00.0471511,82959,4
ProductSpecifications.SearchIgnoresCase (correctness),Passed,00:00:00.0466846,62598,4
PaymentServices.PaymentServices.Valid (well-formedness),Passed,00:00:00.0463081,140906,4
OrderServices.PlannedOrderTotal (well-formedness),Passed,00:00:00.0458077,124912,4
Ordering.KeyLeAntisymmetric (correctness),Passed,00:00:00.0454995,28256,4
ProductSpecifications.NewProductSpecificationsById (correctness),Passed,00:00:00.0441844,126353,4
OrderServices.OrderServices.GetDeliveryMethods (well-formedness),Passed,00:00:00.0441844,132453,4
CacheAttribute.SegmentsAppend (correctness),Passed,00:00:00.0433849,91401,4
CacheAttribute.SortedHeadsEqual (correctness),Passed,00:00:00.0431468,78676,4
OrderServices.OrderServices.Valid (well-formedness),Passed,00:00:00.0420098,126277,4
StableSort.SortedGivesTiesOrdered (correctness),Passed,00:00:00.0404965,50235,4
BasketServices.BasketServices.CreateOrUpdateBasket (well-formedness),Passed,00:00:00.0403073,83320,4
PaymentServices.AmountInCents (correctness),Passed,00:00:00.0399388,171593,4
SpecificationsEvaluator.CreateQueryBothKeys (well-formedness),Passed,00:00:00.0398915,87827,4
BasketRepository.BasketRepository.GetBasket (well-formedness),Passed,00:00:00.0392760,61172,4
OrderSpecifications.NewOrderSpecificationByEmail (correctness),Passed,00:00:00.0389274,102239,4
BasketRepository.BasketRepository.DeleteBasket (correctness),Passed,00:00:00.0386276,73259,4
SpecificationsEvaluator.CreateQueryShape (correctness),Passed,00:00:00.0379771,82714,4
SpecificationsEvaluator.CreateQueryMembers (correctness),Passed,00:00:00.0379148,84775,4
PaymentServices.PaymentServices.RefreshItemPrices (well-formedness),Passed,00:00:00.0378547,87963,4
UnitOfWork.UnitOfWork.GetDeliveryMethodRepository (well-formedness),Passed,00:00:00.0375959,83736,4
SpecificationsEvaluator.CreateQueryDescending (well-formedness),Passed,00:00:00.0372041,79605,4
CacheAttribute.SortedHeadLeast (well-formedness),Passed,00:00:00.0367597,43715,4
Store.ApplyAllKeepsKeysUnique (well-formedness),Passed,00:00:00.0363653,58387,4
Store.ApplyAll (well-formedness),Passed,00:00:00.0360953,58149,4
CacheRepository.CacheRepository.Set (correctness),Passed,00:00:00.0358626,56332,4
SpecificationsEvaluator.SameCriteriaSameCount (correctness),Passed,00:00:00.0352067,82378,4
CacheAttribute.CacheKeyIgnoresArrivalOrder (correctness),Passed,00:00:00.0350850,76223,4
ProductSpecifications.NewCountProductSpecifications (well-formedness),Passed,00:00:00.0341492,92835,4
SpecificationsEvaluator.CreateQueryMembers (well-formedness),Passed,00:00:00.0333118,77647,4
Redis.RedisDatabase.StringSet (correctness),Passed,00:00:00.0323092,62615,4
OrderServices.OrderServices.ConvertItems (well-formedness),Passed,00:00:00.0318172,85848,4
SpecificationsEvaluator.WhereIsSubsequence (correctness),Passed,00:00:00.0313457,71917,4
ProductSpecifications.NewProductSpecificationsById (well-formedness),Passed,00:00:00.0312803,88821,4
UnitOfWork.UnitOfWork.GetProductRepository (well-formedness),Passed,00:00:00.0308329,83736,4
UnitOfWork.UnitOfWork.Valid (well-formedness),Passed,00:00:00.0305649,52773,4
OrderSpecifications.NewOrderWithPaymentIntentIdSpecification (well-formedness),Passed,00:00:00.0305136,60685,4
UnitOfWork.UnitOfWork.GetOrderRepository (well-formedness),Passed,00:00:00.0302867,83736,4
BasketItemValidation.ValidationErrors (well-formedness),Passed,00:00:00.0300417,48544,4
CacheAttribute.SortedQuery (well-formedness),Passed,00:00:00.0298811,57933,4
Store.ApplyAllKeepsKeysUnique (correctness),Passed,00:00:00.0294423,71946,4
OrderSpecifications.OrderWithPaymentIntentSpec (well-formedness),Passed,00:00:00.0293195,68118,4
StableSort.SortBySorted (correctness),Passed,00:00:00.0293095,58369,4
BasketServices.BasketServices.DeleteBasket (well-formedness),Passed,00:00:00.0292592,75123,4
Store.ApplyChange (well-formedness),Passed,00:00:00.0288697,66551,4
UnitOfWork.UnitOfWork.Serves (well-formedness),Passed,00:00:00.0283200,42497,4
BasketRepository.BasketRepository._ctor (correctness),Passed,00:00:00.0275293,37517,4
Redis.RedisDatabase.KeyDelete (correctness),Passed,00:00:00.0273834,54941,4
UnitOfWork.UnitOfWork.DomainTypesOnly (well-formedness),Passed,00:00:00.0272070,64921,4
OrderSpecifications.NewOrderSpecificationByEmail (well-formedness),Passed,00:00:00.0271986,66550,4
Store.AddedIsFound (well-formedness),Passed,00:00:00.0269846,57108,4
OrderSpecifications.NewOrderSpecificationById (well-formedness),Passed,00:00:00.0269485,72540,4
CacheAttribute.CacheKeyOf (well-formedness),Passed,00:00:00.0269385,67737,4
SpecificationsEvaluator.Filtered (well-formedness),Passed,00:00:00.0265980,62033,4
Store.ApplyChangeKeepsKeysUnique (well-formedness),Passed,00:00:00.0259539,55540,4
Redis.RedisDatabase._ctor (correctness),Passed,00:00:00.0256758,21752,4
Specifications.BaseSpecification._ctor (correctness),Passed,00:00:00.0254984,37150,4
Store.RemoveKey (well-formedness),Passed,00:00:00.0249284,55057,4
OrderSpecifications.NewOrderWithPaymentIntentIdSpecification (correctness),Passed,00:00:00.0249129,67403,4
StableSort.TiesOrderedBy (well-formedness),Passed,00:00:00.0247465,38655,4
Store.StoreContext._ctor (well-formedness),Passed,00:00:00.0246587,63858,4
OrderServices.OrderItemsFor (well-formedness),Passed,00:00:00.0244034,52542,4
CacheAttribute.DistinctKeysTail (correctness),Passed,00:00:00.0241058,59093,4
PaymentServices.RefreshPricesIdempotent (well-formedness),Passed,00:00:00.0239246,65757,4
Store.StoreContext.Valid (well-formedness),Passed,00:00:00.0232044,58648,4
PaymentServices.RefreshPricesIdempotent (correctness),Passed,00:00:00.0230226,59367,4
CacheAttribute.SortedHeadsEqual (well-formedness),Passed,00:00:00.0229504,54224,4
OrderServices.OrderServices._ctor (correctness),Passed,00:00:00.0218973,8778,4
CacheAttribute.SortedHeadLeast (correctness),Passed,00:00:00.0216722,55861,4
Redis.RedisDatabase.KeyDelete (well-formedness),Passed,00:00:00.0214700,35998,4
SpecificationsEvaluator.WhereNone (correctness),Passed,00:00:00.0213968,41790,4
Redis.RedisDatabase.StringSet (well-formedness),Passed,00:00:00.0212780,43110,4
ProductSpecifications.ProductCriteria (well-formedness),Passed,00:00:00.0208619,51417,4
ProductSpecifications.NoFilterMatchesAll (correctness),Passed,00:00:00.0206771,45766,4
PaymentServices.AmountIsWholeHundreds (correctness),Passed,00:00:00.0205098,65652,4
CacheAttribute.SortedTail (correctness),Passed,00:00:00.0203572,54404,4
Repository.GenericRepository.Update (correctness),Passed,00:00:00.0199638,23495,4
Store.ReplaceKey (well-formedness),Passed,00:00:00.0197864,39632,4
ProductSpecifications.ToLower (well-formedness),Passed,00:00:00.0197102,21258,4
Repository.GenericRepository.Add (correctness),Passed,00:00:00.0196011,23495,4
SpecificationsEvaluator.IncludeAllKeepsRows (correctness),Passed,00:00:00.0184822,61463,4
PaymentServices.Repriced (well-formedness),Passed,00:00:00.0184332,39641,4
Repository.GenericRepository.GetAll (well-formedness),Passed,00:00:00.0183712,13331,4
StableSort.BeforeTotal (correctness),Passed,00:00:00.0181115,32789,4
Ordering.StrLeTransitive (correctness),Passed,00:00:00.0181008,23930,4
Repository.GenericRepository.Add (well-formedness),Passed,00:00:00.0180911,22742,4
BasketLines.BasketTotal (well-formedness),Passed,00:00:00.0178825,18788,4
Repository.GenericRepository.Delete (correctness),Passed,00:00:00.0175352,23495,4
Store.DbSet._ctor (correctness),Passed,00:00:00.0173737,39281,4
ProductQuery.ProductQueryParam._ctor (correctness),Passed,00:00:00.0172150,24490,4
PaymentServices.DivBounds (correctness),Passed,00:00:00.0168753,17603,4
CacheAttribute.SortedTail (well-formedness),Passed,00:00:00.0168394,41493,4
PaymentServices.AmountInCents (well-formedness),Passed,00:00:00.0167472,44909,4
ProductSpecifications.NoFilterMatchesAll (well-formedness),Passed,00:00:00.0166921,43555,4
Ordering.StrLeAntisymmetric (correctness),Passed,00:00:00.0166728,31432,4
ProductSpecifications.ToLowerIdempotent (correctness),Passed,00:00:00.0165810,28671,4
Domain.UniqueKeys (well-formedness),Passed,00:00:00.0165721,16857,4
Ordering.StrLeTotal (correctness),Passed,00:00:00.0162872,19911,4
Repository.GenericRepository.Update (well-formedness),Passed,00:00:00.0159497,22742,4
SpecificationsEvaluator.IsSubsequence (well-formedness),Passed,00:00:00.0154092,16257,4
PaymentServices.AmountIsWholeHundreds (well-formedness),Passed,00:00:00.0151786,43072,4
PaymentServices.Wrap64 (well-formedness),Passed,00:00:00.0151577,49975,4
BasketItemValidation.ValidationIgnoresIdentity (correctness),Passed,00:00:00.0149965,41292,4
Ordering.StrLe (well-formedness),Passed,00:00:00.0148933,16867,4
BasketItemValidation.ValidBasketItemBounds (correctness),Passed,00:00:00.0148755,43831,4
Domain.GetTotal (well-formedness),Passed,00:00:00.0145505,34607,4
PictureUrl.OrderItemPictureUrl (well-formedness),Passed,00:00:00.0144726,34450,4
Repository.GenericRepository.Delete (well-formedness),Passed,00:00:00.0143457,22742,4
CacheAttribute.CacheAttribute._ctor (correctness),Passed,00:00:00.0143443,24592,4
Domain.NewOrder (well-formedness),Passed,00:00:00.0139728,27192,4
Specifications.BaseSpecification.AddOrderBy (well-formedness),Passed,00:00:00.0137500,22753,4
PictureUrl.ResolvePictureUrl (well-formedness),Passed,00:00:00.0137025,24259,4
Specifications.BaseSpecification.AddOrderByDesc (well-formedness),Passed,00:00:00.0136200,22753,4
Ordering.KeyLeTransitive (correctness),Passed,00:00:00.0132319,33216,4
ProductQuery.ProductQueryParam.SetPageSize (well-formedness),Passed,00:00:00.0130413,7980,4
Store.DbSet.Stage (well-formedness),Passed,00:00:00.0128171,18569,4
CacheAttribute.Segments (well-formedness),Passed,00:00:00.0127423,20590,4
Store.StoreContext.PendingCount (well-formedness),Passed,00:00:00.0127187,22290,4
PaymentServices.TruncDiv (well-formedness),Passed,00:00:00.0126000,21843,4
PaymentServices.ItemsChargeIsHundredfoldTotal (correctness),Passed,00:00:00.0124522,24839,4
ProductSpecifications.LowerChar (well-formedness),Passed,00:00:00.0118635,6538,4
PictureUrl.BaseOf (well-formedness),Passed,00:00:00.0118360,8080,4
OrderServices.OrderServices.NothingStaged (well-formedness),Passed,00:00:00.0117397,30370,4
OrderServices.SubTotal (well-formedness),Passed,00:00:00.0117164,15488,4
PaymentServices.DivBounds (well-formedness),Passed,00:00:00.0115293,4873,4
Ordering.KeyLeReflexive (correctness),Passed,00:00:00.0111175,25669,4
Specifications.BaseSpecification.AddOrderByDesc (correctness),Passed,00:00:00.0111134,24204,4
Ordering.StrLeReflexive (correctness),Passed,00:00:00.0111106,14390,4
Specifications.BaseSpecification.AddOrderBy (correctness),Passed,00:00:00.0109959,24204,4
CacheAttribute.DistinctKeysTail (well-formedness),Passed,00:00:00.0108154,21806,4
ProductSpecifications.Contains (well-formedness),Passed,00:00:00.0106275,14153,4
BasketServices.BasketServices._ctor (correctness),Passed,00:00:00.0101611,6775,4
SpecificationsEvaluator.IncludeAll (well-formedness),Passed,00:00:00.0101449,23727,4
Store.DbSet.Valid (well-formedness),Passed,00:00:00.0098067,23809,4
Specifications.BaseSpecification.AddInclude (well-formedness),Passed,00:00:00.0096264,15453,4
Store.DbSet.Stage (correctness),Passed,00:00:00.0094518,21621,4
Specifications.BaseSpecification.AddInclude (correctness),Passed,00:00:00.0094203,16381,4
PaymentServices.ItemsCharge (well-formedness),Passed,00:00:00.0089192,18866,4
ProductQuery.ProductQueryParam.SetPageSize (correctness),Passed,00:00:00.0080984,10855,4
CacheRepository.CacheRepository._ctor (correctness),Passed,00:00:00.0075787,6775,4
Repository.GenericRepository._ctor (correctness),Passed,00:00:00.0069577,10459,4
PaymentServices.PaymentServices._ctor (correctness),Passed,00:00:00.0067268,8778,4
