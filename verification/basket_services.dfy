/**
 * The basket service: writes a basket and returns it read back, reads a
 * basket or fails with basket-not-found, and deletes a basket. Mapping
 * between the basket and its transfer object copies every field, so one
 * datatype serves as both.
 */
module BasketServices {
  import opened Wrappers
  import opened Domain
  import opened Redis
  import opened BasketRepository

  class BasketServices {
    const basketRepository: BasketRepository

    constructor (basketRepository: BasketRepository)
      ensures this.basketRepository == basketRepository
    {
      this.basketRepository := basketRepository;
    }

    /** The basket under the key; a missing one is an error. */
    function GetBasket(key: string, now: Millis): (r: Result<CustomerBasket, Error>)
      reads basketRepository.database
      ensures r.Err? <==> basketRepository.GetBasket(key, now).None?
      ensures r.Err? ==> r.error == BasketNotFound(key)
      ensures r.Ok? ==> basketRepository.GetBasket(key, now) == Some(r.value)
    {
      match basketRepository.GetBasket(key, now)
      case None => Err(BasketNotFound(key))
      case Some(basket) => Ok(basket)
    }

    /**
     * Stores the basket for the default five hours and returns a fresh read of
     * it; a refused write is an error.
     */
    method CreateOrUpdateBasket(basket: CustomerBasket, now: Millis, accepted: bool)
      returns (r: Result<CustomerBasket, Error>)
      requires basketRepository.Valid()
      modifies basketRepository.database
      ensures accepted ==> (basketRepository.database.entries ==
        old(basketRepository.database.entries)[basket.id := Entry(basketRepository.json.encode(basket), now + DEFAULT_BASKET_TTL)])
      ensures !accepted ==> basketRepository.database.entries == old(basketRepository.database.entries)
      ensures accepted ==> r == Ok(basket)
      ensures accepted ==> forall t :: now <= t <= now + DEFAULT_BASKET_TTL ==> GetBasket(basket.id, t) == Ok(basket)
      ensures !accepted ==> r == Err(BasketProcessingFailed)
    {
      var saved := basketRepository.CreateUpdateBasket(basket, None, now, accepted);
      if saved.Some? {
        r := GetBasket(saved.value.id, now);
      } else {
        r := Err(BasketProcessingFailed);
      }
    }

    /** Deletes the basket; reports what the store reports. */
    method DeleteBasket(key: string, now: Millis) returns (removed: bool)
      modifies basketRepository.database
      ensures removed <==> old(basketRepository.database.StringGet(key, now)).Some?
      ensures forall t :: GetBasket(key, t) == Err(BasketNotFound(key))
      ensures forall k, t :: k != key ==> GetBasket(k, t) == old(GetBasket(k, t))
    {
      removed := basketRepository.DeleteBasket(key, now);
    }
  }
}
