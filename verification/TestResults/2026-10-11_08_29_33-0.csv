TestResult.DisplayName,TestResult.Outcome,TestResult.Duration,TestResult.ResourceCount,RandomSeed
OrderServices.OrderServices.CreateOrder (correctness),Passed,00:00:00.8724194,2060978,2
PaymentServices.PaymentServices.CreateOrUpdatePaymentIntent (correctness),Passed,00:00:00.5018913,1246498,2
CacheAttribute.CreateCacheKey (correctness),Passed,00:00:00.2605795,603965,2
Repository.SpecificationByKeyIsGetById (correctness),Passed,00:00:00.2579403,663118,2
OrderSpecifications.OrdersOfUserResult (correctness),Passed,00:00:00.2476974,601586,2
StableSort.InsertKeepsTies (correctness),Passed,00:00:00.2232678,626203,2
OrderServices.OrderServices.GetAllOrders (correctness),Passed,00:00:00.1907131,498492,2
Store.StoreContext.SaveChanges (correctness),Passed,00:00:00.1789514,448743,2
OrderServices.OrderServices.GetOrderById (correctness),Passed,00:00:00.1783913,454142,2
SpecificationsEvaluator.WhereUniqueKey (correctness),Passed,00:00:00.1744022,361010,2
OrderServices.OrderServices.ConvertItems (correctness),Passed,00:00:00.1730554,550236,2
CacheAttribute.SortedDictionaryUnique (correctness),Passed,00:00:00.1714303,618411,2
PaymentServices.PlanPayment (well-formedness),Passed,00:00:00.1639820,306475,2
OrderServices.OrderServices.CreateOrder (well-formedness),Passed,00:00:00.1411229,303188,2
OrderServices.PlanOrder (well-formedness),Passed,00:00:00.1386062,290795,2
PaymentServices.PaymentServices.RefreshItemPrices (correctness),Passed,00:00:00.1354864,343825,2
UnitOfWork.UnitOfWork.GetRepository (correctness),Passed,00:00:00.1343525,365471,2
PaymentServices.PaymentServices.CreateOrUpdatePaymentIntent (well-formedness),Passed,00:00:00.1282216,277581,2
OrderServices.PlannedOrderTotal (correctness),Passed,00:00:00.1139478,202030,2
StableSort.InsertSorted (correctness),Passed,00:00:00.1131929,189918,2
CacheAttribute.CacheAttribute.OnActionExecution (correctness),Passed,00:00:00.1131306,276584,2
PaymentServices.RefreshPrices (well-formedness),Passed,00:00:00.1091470,155048,2
BasketLines.FirstMissingProduct (well-formedness),Passed,00:00:00.1047987,304558,2
Repository.GenericRepository.GetByIdWithSpecifications (well-formedness),Passed,00:00:00.1040592,149415,2
OrderServices.OrderServices.Plan (well-formedness),Passed,00:00:00.1020117,168760,2
Store.StoreContext._ctor (correctness),Passed,00:00:00.0967840,191391,2
SpecificationsEvaluator.CreateQueryIgnoresPagination (correctness),Passed,00:00:00.0961716,215362,2
StableSort.SortByKeepsSorted (correctness),Passed,00:00:00.0937449,256320,2
Repository.GenericRepository.GetAllWithSpecifications (well-formedness),Passed,00:00:00.0936815,161967,2
ProductSpecifications.NewProductSpecifications (correctness),Passed,00:00:00.0929721,216935,2
PaymentServices.PaymentServices.Plan (well-formedness),Passed,00:00:00.0929504,164834,2
OrderSpecifications.OrderByIdSpec (well-formedness),Passed,00:00:00.0886004,80519,2
OrderSpecifications.OrderByIdAtMostOne (correctness),Passed,00:00:00.0880944,189836,2
UnitOfWork.UnitOfWork.SaveChanges (well-formedness),Passed,00:00:00.0878105,153815,2
StableSort.SortedBy (well-formedness),Passed,00:00:00.0858843,36932,2
Repository.SpecificationByKeyIsGetById (well-formedness),Passed,00:00:00.0854492,103374,2
ProductSpecifications.UnfilteredCountIsAll (correctness),Passed,00:00:00.0834348,164442,2
UnitOfWork.UnitOfWork.GetOrderRepository (correctness),Passed,00:00:00.0833854,166819,2
UnitOfWork.UnitOfWork.GetRepository (well-formedness),Passed,00:00:00.0833812,115160,2
Store.ApplyChangeKeepsKeysUnique (correctness),Passed,00:00:00.0832072,141247,2
OrderSpecifications.OrdersOfUserSpec (well-formedness),Passed,00:00:00.0816792,75319,2
ProductSpecifications.ProductListSpec (well-formedness),Passed,00:00:00.0793931,98052,2
OrderServices.OrderServices.GetDeliveryMethods (correctness),Passed,00:00:00.0787916,155271,2
Redis.RedisDatabase.StringGet (well-formedness),Passed,00:00:00.0782221,32911,2
Store.StoreContext.SaveChanges (well-formedness),Passed,00:00:00.0764622,143943,2
SpecificationsEvaluator.CreateQueryFilters (correctness),Passed,00:00:00.0757107,95185,2
PaymentServices.PaymentAmount (well-formedness),Passed,00:00:00.0748132,87779,2
Repository.GenericRepository.Add (well-formedness),Passed,00:00:00.0739723,22728,2
SpecificationsEvaluator.WhereNone (correctness),Passed,00:00:00.0739347,41767,2
ProductQuery.ClampPageSizeIdempotent (correctness),Passed,00:00:00.0735115,4982,2
ProductQuery.ClampPageSize (well-formedness),Passed,00:00:00.0734538,7068,2
OrderSpecifications.OrdersOfUserResult (well-formedness),Passed,00:00:00.0732365,121507,2
UnitOfWork.UnitOfWork.GetProductRepository (correctness),Passed,00:00:00.0725246,176206,2
StableSort.SortBySorted (correctness),Passed,00:00:00.0722960,58524,2
Store.FindByKey (well-formedness),Passed,00:00:00.0722168,46907,2
BasketServices.BasketServices.GetBasket (well-formedness),Passed,00:00:00.0722012,75033,2
UnitOfWork.UnitOfWork.GetDeliveryMethodRepository (correctness),Passed,00:00:00.0714405,168741,2
SpecificationsEvaluator.CreateQueryAscending (correctness),Passed,00:00:00.0703376,93685,2
BasketRepository.BasketRepository.DeleteBasket (well-formedness),Passed,00:00:00.0703065,55015,2
UnitOfWork.UnitOfWork.SaveChanges (correctness),Passed,00:00:00.0701811,174764,2
ProductSpecifications.CountMatchesListing (correctness),Passed,00:00:00.0691101,123772,2
PaymentServices.RepeatedPaymentUpdates (well-formedness),Passed,00:00:00.0683245,133857,2
SpecificationsEvaluator.CreateQueryFilters (well-formedness),Passed,00:00:00.0683000,77754,2
StableSort.SortByKeepsTies (correctness),Passed,00:00:00.0682235,138593,2
SpecificationsEvaluator.CreateQueryBothKeys (correctness),Passed,00:00:00.0672905,107227,2
Specifications.BaseSpecification.View (well-formedness),Passed,00:00:00.0672068,32420,2
UnitOfWork.UnitOfWork._ctor (correctness),Passed,00:00:00.0668417,88572,2
PaymentServices.RepeatedPaymentUpdates (correctness),Passed,00:00:00.0663440,166059,2
Store.AddedIsFound (correctness),Passed,00:00:00.0653231,73600,2
BasketServices.BasketServices.DeleteBasket (correctness),Passed,00:00:00.0652933,83385,2
OrderSpecifications.NewOrderSpecificationById (correctness),Passed,00:00:00.0645628,106413,2
Store.ApplySingleInsert (correctness),Passed,00:00:00.0639278,63192,2
PaymentServices.PaymentServices.Valid (well-formedness),Passed,00:00:00.0637236,140931,2
CacheRepository.CacheRepository.Get (well-formedness),Passed,00:00:00.0629518,41362,2
SpecificationsEvaluator.CreateQueryDescending (well-formedness),Passed,00:00:00.0626850,79479,2
CacheRepository.CacheRepository.Set (well-formedness),Passed,00:00:00.0626736,52486,2
OrderServices.OrderServices.ConvertItems (well-formedness),Passed,00:00:00.0609767,85854,2
ProductSpecifications.ProductCountSpec (well-formedness),Passed,00:00:00.0599774,81255,2
ProductSpecifications.ProductByIdSpec (well-formedness),Passed,00:00:00.0598577,106253,2
Specifications.BaseSpecification.AddOrderByDesc (correctness),Passed,00:00:00.0598179,24201,2
ProductSpecifications.NewCountProductSpecifications (correctness),Passed,00:00:00.0595830,98864,2
BasketServices.BasketServices.CreateOrUpdateBasket (correctness),Passed,00:00:00.0585707,138612,2
OrderServices.OrderServices.GetAllOrders (well-formedness),Passed,00:00:00.0583639,166779,2
SpecificationsEvaluator.CreateQueryAscending (well-formedness),Passed,00:00:00.0564484,79614,2
OrderServices.OrderServices.Valid (well-formedness),Passed,00:00:00.0562486,125754,2
OrderSpecifications.NewOrderWithPaymentIntentIdSpecification (well-formedness),Passed,00:00:00.0551973,60685,2
Store.StoreContext.Applicable (well-formedness),Passed,00:00:00.0534739,76456,2
OrderSpecifications.OrderWithPaymentIntentResult (correctness),Passed,00:00:00.0531921,144895,2
SpecificationsEvaluator.CreateQueryPermutesFiltered (correctness),Passed,00:00:00.0527511,85599,2
OrderServices.OrderServices.GetOrderById (well-formedness),Passed,00:00:00.0524190,148312,2
Domain.GetTotalMonotone (well-formedness),Passed,00:00:00.0510411,39426,2
Domain.GetTotalMonotone (correctness),Passed,00:00:00.0491422,38237,2
SpecificationsEvaluator.Where (well-formedness),Passed,00:00:00.0488032,126459,2
CacheAttribute.CacheAttribute.OnActionExecution (well-formedness),Passed,00:00:00.0486527,132171,2
BasketRepository.BasketRepository.CreateUpdateBasket (correctness),Passed,00:00:00.0479475,110022,2
OrderServices.OrderServices.GetDeliveryMethods (well-formedness),Passed,00:00:00.0475168,132472,2
SpecificationsEvaluator.CreateQueryDescending (correctness),Passed,00:00:00.0472880,92042,2
OrderServices.PlannedOrderTotal (well-formedness),Passed,00:00:00.0467761,124860,2
OrderServices.OrderServices.Commits (well-formedness),Passed,00:00:00.0450577,47547,2
Repository.UnfilteredIsGetAll (correctness),Passed,00:00:00.0448285,88281,2
Ordering.KeyLeTotal (correctness),Passed,00:00:00.0447188,28348,2
ProductSpecifications.NewProductSpecificationsById (correctness),Passed,00:00:00.0443103,123937,2
SpecificationsEvaluator.CreateQueryBothKeys (well-formedness),Passed,00:00:00.0441707,87605,2
StableSort.Insert (well-formedness),Passed,00:00:00.0441411,123733,2
OrderSpecifications.NewOrderSpecificationByEmail (correctness),Passed,00:00:00.0434938,102093,2
Repository.UnfilteredIsGetAll (well-formedness),Passed,00:00:00.0412401,84800,2
Ordering.KeyLeAntisymmetric (correctness),Passed,00:00:00.0409467,28243,2
BasketRepository.BasketRepository.CreateUpdateBasket (well-formedness),Passed,00:00:00.0407937,82942,2
Store.StoreContext.Valid (well-formedness),Passed,00:00:00.0404850,58651,2
Store.RemoveKeyIsSubsequence (correctness),Passed,00:00:00.0402357,126215,2
SpecificationsEvaluator.CreateQueryMembers (well-formedness),Passed,00:00:00.0390695,77662,2
StableSort.SortedGivesTiesOrdered (correctness),Passed,00:00:00.0377894,50293,2
CacheAttribute.SortedHeadsEqual (correctness),Passed,00:00:00.0374267,78616,2
StableSort.SortBy (well-formedness),Passed,00:00:00.0368172,92989,2
SpecificationsEvaluator.CreateQueryUnfiltered (correctness),Passed,00:00:00.0367085,79300,2
ProductSpecifications.NewCountProductSpecifications (well-formedness),Passed,00:00:00.0360561,92813,2
SpecificationsEvaluator.CreateQueryMembers (correctness),Passed,00:00:00.0359813,86589,2
SpecificationsEvaluator.SameCriteriaSameCount (correctness),Passed,00:00:00.0359207,82272,2
UnitOfWork.UnitOfWork.Valid (well-formedness),Passed,00:00:00.0355941,52769,2
OrderSpecifications.NewOrderWithPaymentIntentIdSpecification (correctness),Passed,00:00:00.0348219,67383,2
SpecificationsEvaluator.CreateQueryShape (correctness),Passed,00:00:00.0346612,82599,2
BasketRepository.BasketRepository.GetBasket (well-formedness),Passed,00:00:00.0345417,61164,2
PaymentServices.PaymentServices.RefreshItemPrices (well-formedness),Passed,00:00:00.0338272,87960,2
UnitOfWork.UnitOfWork.GetOrderRepository (well-formedness),Passed,00:00:00.0336357,83700,2
UnitOfWork.UnitOfWork.GetProductRepository (well-formedness),Passed,00:00:00.0332403,83700,2
Store.ApplyAllKeepsKeysUnique (well-formedness),Passed,00:00:00.0328823,58492,2
ProductSpecifications.NewProductSpecifications (well-formedness),Passed,00:00:00.0327727,92280,2
BasketServices.BasketServices.CreateOrUpdateBasket (well-formedness),Passed,00:00:00.0326205,83325,2
UnitOfWork.UnitOfWork.GetDeliveryMethodRepository (well-formedness),Passed,00:00:00.0325174,83700,2
Store.ApplyAllKeepsKeysUnique (correctness),Passed,00:00:00.0324216,72171,2
OrderSpecifications.NewOrderSpecificationById (well-formedness),Passed,00:00:00.0323104,72545,2
BasketRepository.BasketRepository.DeleteBasket (correctness),Passed,00:00:00.0320131,73102,2
PaymentServices.AmountInCents (correctness),Passed,00:00:00.0318536,174849,2
ProductSpecifications.NewProductSpecificationsById (well-formedness),Passed,00:00:00.0318322,88792,2
CacheAttribute.SortedHeadLeast (well-formedness),Passed,00:00:00.0305317,43722,2
SpecificationsEvaluator.WhereIsSubsequence (correctness),Passed,00:00:00.0299406,67930,2
CacheAttribute.CacheKeyOf (well-formedness),Passed,00:00:00.0297359,67732,2
CacheAttribute.CacheKeyIgnoresArrivalOrder (correctness),Passed,00:00:00.0293603,76220,2
OrderServices.OrderItemsFor (well-formedness),Passed,00:00:00.0290127,52792,2
SpecificationsEvaluator.Ordered (well-formedness),Passed,00:00:00.0289278,69152,2
ProductSpecifications.SearchIgnoresCase (correctness),Passed,00:00:00.0286136,62425,2
CacheRepository.CacheRepository.Set (correctness),Passed,00:00:00.0284825,56400,2
OrderServices.SubTotalOfBasket (correctness),Passed,00:00:00.0284423,62687,2
CacheAttribute.SegmentsAppend (correctness),Passed,00:00:00.0283245,91437,2
OrderSpecifications.NewOrderSpecificationByEmail (well-formedness),Passed,00:00:00.0277383,66550,2
BasketServices.BasketServices.DeleteBasket (well-formedness),Passed,00:00:00.0277048,75119,2
PaymentServices.RefreshPricesIdempotent (correctness),Passed,00:00:00.0275660,59081,2
Store.StoreContext._ctor (well-formedness),Passed,00:00:00.0263300,63936,2
Redis.RedisDatabase.StringSet (correctness),Passed,00:00:00.0260444,62625,2
PaymentServices.RefreshPricesIdempotent (well-formedness),Passed,00:00:00.0260386,66660,2
Store.ApplyChange (well-formedness),Passed,00:00:00.0258942,66542,2
CacheAttribute.SortedHeadLeast (correctness),Passed,00:00:00.0258672,55735,2
PaymentServices.AmountIsWholeHundreds (correctness),Passed,00:00:00.0254664,70395,2
CacheAttribute.SortedQuery (well-formedness),Passed,00:00:00.0252980,57781,2
OrderSpecifications.OrderWithPaymentIntentSpec (well-formedness),Passed,00:00:00.0251094,67745,2
UnitOfWork.UnitOfWork.DomainTypesOnly (well-formedness),Passed,00:00:00.0249554,65456,2
Store.ApplyAll (well-formedness),Passed,00:00:00.0247934,58177,2
StableSort.TiesOrderedBy (well-formedness),Passed,00:00:00.0240727,38648,2
Store.ReplaceKey (well-formedness),Passed,00:00:00.0240233,39302,2
Redis.RedisDatabase.KeyDelete (correctness),Passed,00:00:00.0237015,54940,2
ProductSpecifications.ProductCriteria (well-formedness),Passed,00:00:00.0235045,51393,2
SpecificationsEvaluator.Filtered (well-formedness),Passed,00:00:00.0233789,62140,2
Store.AddedIsFound (well-formedness),Passed,00:00:00.0226702,57217,2
Store.ApplyChangeKeepsKeysUnique (well-formedness),Passed,00:00:00.0222498,55579,2
CacheAttribute.SortedHeadsEqual (well-formedness),Passed,00:00:00.0221003,54154,2
BasketRepository.BasketRepository._ctor (correctness),Passed,00:00:00.0220589,37515,2
Repository.GenericRepository.GetById (well-formedness),Passed,00:00:00.0217661,40286,2
PaymentServices.Repriced (well-formedness),Passed,00:00:00.0217289,39617,2
ProductQuery.ProductQueryParam._ctor (correctness),Passed,00:00:00.0216771,24495,2
Ordering.StrLeAntisymmetric (correctness),Passed,00:00:00.0216593,31909,2
Redis.RedisDatabase.StringSet (well-formedness),Passed,00:00:00.0216429,42848,2
CacheAttribute.SortedTail (correctness),Passed,00:00:00.0213590,54230,2
StableSort.BeforeTotal (correctness),Passed,00:00:00.0211879,32789,2
Redis.RedisDatabase.KeyDelete (well-formedness),Passed,00:00:00.0211420,35992,2
Store.RemoveKey (well-formedness),Passed,00:00:00.0201297,54379,2
PaymentServices.DivBounds (correctness),Passed,00:00:00.0199463,20646,2
CacheAttribute.DistinctKeysTail (correctness),Passed,00:00:00.0198465,59686,2
PaymentServices.AmountInCents (well-formedness),Passed,00:00:00.0194979,44896,2
Specifications.BaseSpecification._ctor (correctness),Passed,00:00:00.0194921,36871,2
BasketItemValidation.ValidationErrors (well-formedness),Passed,00:00:00.0192283,48325,2
StableSort.BeforeTransitive (correctness),Passed,00:00:00.0190559,42459,2
SpecificationsEvaluator.IncludeAllKeepsRows (correctness),Passed,00:00:00.0189414,64277,2
Domain.NewOrder (well-formedness),Passed,00:00:00.0187277,27191,2
CacheAttribute.SortedTail (well-formedness),Passed,00:00:00.0187188,41386,2
UnitOfWork.UnitOfWork.Serves (well-formedness),Passed,00:00:00.0186710,42509,2
Store.DbSet._ctor (correctness),Passed,00:00:00.0185378,39281,2
ProductSpecifications.NoFilterMatchesAll (correctness),Passed,00:00:00.0179745,45767,2
OrderServices.OrderServices.NothingStaged (well-formedness),Passed,00:00:00.0177415,30371,2
Ordering.StrLeTransitive (correctness),Passed,00:00:00.0171601,23919,2
ProductSpecifications.NoFilterMatchesAll (well-formedness),Passed,00:00:00.0169644,43555,2
Repository.GenericRepository.Update (well-formedness),Passed,00:00:00.0163341,22728,2
BasketItemValidation.ValidBasketItemBounds (correctness),Passed,00:00:00.0158704,43866,2
PaymentServices.AmountIsWholeHundreds (well-formedness),Passed,00:00:00.0155392,43083,2
Redis.RedisDatabase._ctor (correctness),Passed,00:00:00.0151152,21708,2
ProductSpecifications.ToLower (well-formedness),Passed,00:00:00.0149006,21343,2
BasketItemValidation.ValidationIgnoresIdentity (correctness),Passed,00:00:00.0147466,40028,2
Ordering.StrLe (well-formedness),Passed,00:00:00.0143139,16869,2
SpecificationsEvaluator.IsSubsequence (well-formedness),Passed,00:00:00.0141876,16256,2
PictureUrl.OrderItemPictureUrl (well-formedness),Passed,00:00:00.0141637,34453,2
PaymentServices.ItemsCharge (well-formedness),Passed,00:00:00.0139769,18806,2
PaymentServices.Wrap64 (well-formedness),Passed,00:00:00.0139589,52031,2
Specifications.BaseSpecification.AddInclude (well-formedness),Passed,00:00:00.0136986,15452,2
Ordering.KeyLeReflexive (correctness),Passed,00:00:00.0136026,25711,2
Domain.GetTotal (well-formedness),Passed,00:00:00.0135732,34540,2
Repository.GenericRepository.Add (correctness),Passed,00:00:00.0135398,23481,2
OrderServices.SubTotal (well-formedness),Passed,00:00:00.0131543,15489,2
Ordering.KeyLeTransitive (correctness),Passed,00:00:00.0131195,33125,2
PaymentServices.ItemsChargeIsHundredfoldTotal (correctness),Passed,00:00:00.0129244,24844,2
Repository.GenericRepository.Update (correctness),Passed,00:00:00.0128639,23481,2
ProductSpecifications.ToLowerIdempotent (correctness),Passed,00:00:00.0127085,28559,2
Store.DbSet.Stage (correctness),Passed,00:00:00.0126183,21617,2
Specifications.BaseSpecification.AddOrderBy (correctness),Passed,00:00:00.0117372,24201,2
BasketLines.BasketTotal (well-formedness),Passed,00:00:00.0116206,18751,2
Ordering.StrLeReflexive (correctness),Passed,00:00:00.0112830,14378,2
CacheAttribute.Segments (well-formedness),Passed,00:00:00.0111239,20609,2
Repository.GenericRepository.Delete (correctness),Passed,00:00:00.0110815,23481,2
Repository.GenericRepository.Delete (well-formedness),Passed,00:00:00.0108560,22728,2
Specifications.BaseSpecification.AddInclude (correctness),Passed,00:00:00.0103304,16384,2
CacheAttribute.CacheAttribute._ctor (correctness),Passed,00:00:00.0103128,24594,2
Ordering.StrLeTotal (correctness),Passed,00:00:00.0102724,19913,2
Specifications.BaseSpecification.AddOrderByDesc (well-formedness),Passed,00:00:00.0101717,22753,2
ProductQuery.ProductQueryParam.SetPageSize (well-formedness),Passed,00:00:00.0099832,7983,2
PictureUrl.ResolvePictureUrl (well-formedness),Passed,00:00:00.0099570,24255,2
SpecificationsEvaluator.IncludeAll (well-formedness),Passed,00:00:00.0099008,23711,2
Store.DbSet.Valid (well-formedness),Passed,00:00:00.0098571,23806,2
Specifications.BaseSpecification.AddOrderBy (well-formedness),Passed,00:00:00.0097252,22753,2
ProductSpecifications.Contains (well-formedness),Passed,00:00:00.0092027,14166,2
Store.StoreContext.PendingCount (well-formedness),Passed,00:00:00.0091004,22290,2
PaymentServices.TruncDiv (well-formedness),Passed,00:00:00.0088836,24563,2
Domain.UniqueKeys (well-formedness),Passed,00:00:00.0085599,16860,2
CacheAttribute.DistinctKeysTail (well-formedness),Passed,00:00:00.0083753,21804,2
Repository.GenericRepository.GetAll (well-formedness),Passed,00:00:00.0082188,13334,2
Store.DbSet.Stage (well-formedness),Passed,00:00:00.0081895,18582,2
PaymentServices.DivBounds (well-formedness),Passed,00:00:00.0080590,4872,2
Repository.GenericRepository._ctor (correctness),Passed,00:00:00.0071256,10458,2
ProductQuery.ProductQueryParam.SetPageSize (correctness),Passed,00:00:00.0065421,10968,2
PictureUrl.BaseOf (well-formedness),Passed,00:00:00.0063641,8081,2
OrderServices.OrderServices._ctor (correctness),Passed,00:00:00.0062621,8778,2
BasketServices.BasketServices._ctor (correctness),Passed,00:00:00.0062373,6775,2
CacheRepository.CacheRepository._ctor (correctness),Passed,00:00:00.0055722,6775,2
ProductSpecifications.LowerChar (well-formedness),Passed,00:00:00.0054193,6534,2
PaymentServices.PaymentServices._ctor (correctness),Passed,00:00:00.0051715,8778,2
