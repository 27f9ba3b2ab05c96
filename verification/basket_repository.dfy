/** Baskets stored as JSON text in Redis under the basket id, with an expiry. */
module BasketRepository {
  import opened Wrappers
  import opened Domain
  import opened Json
  import opened Redis

  /** Five hours. */
  const DEFAULT_BASKET_TTL: Millis := 5 * 60 * 60 * 1000

  class BasketRepository {
    const database: RedisDatabase
    const json: Codec<CustomerBasket>

    ghost predicate Valid()
    {
      Lossless(json)
    }

    constructor (database: RedisDatabase, json: Codec<CustomerBasket>)
      requires Lossless(json)
      ensures this.database == database && this.json == json && Valid()
    {
      this.database := database;
      this.json := json;
    }

    /**
     * The basket under the key: nothing when the key is missing, expired or
     * holds empty text; otherwise the decoded text.
     */
    function GetBasket(key: string, now: Millis): (r: Option<CustomerBasket>)
      reads database
      ensures database.StringGet(key, now).None? ==> r.None?
      ensures database.StringGet(key, now) == Some([]) ==> r.None?
      ensures forall b :: Valid() && database.StringGet(key, now) == Some(json.encode(b)) ==> r == Some(b)
    {
      var stored := database.StringGet(key, now);
      if stored.None? || stored.value == [] then None else json.decode(stored.value)
    }

    /**
     * Writes the basket under its id (replacing any earlier one) for the given
     * time to live, five hours when none is given, then reads it back; nothing
     * when the store refuses the write.
     */
    method CreateUpdateBasket(basket: CustomerBasket, timeToLive: Option<Millis>, now: Millis, accepted: bool)
      returns (r: Option<CustomerBasket>)
      requires Valid()
      requires timeToLive.None? || timeToLive.value > 0
      modifies database
      ensures accepted ==> database.entries == old(database.entries)[basket.id :=
        Entry(json.encode(basket), now + (if timeToLive.None? then DEFAULT_BASKET_TTL else timeToLive.value))]
      ensures !accepted ==> database.entries == old(database.entries)
      ensures accepted ==> r == Some(basket) && GetBasket(basket.id, now) == Some(basket)
      ensures !accepted ==> r.None?
      ensures forall k, t :: k != basket.id ==> GetBasket(k, t) == old(GetBasket(k, t))
    {
      var ttl := if timeToLive.None? then DEFAULT_BASKET_TTL else timeToLive.value;
      var ok := database.StringSet(basket.id, json.encode(basket), ttl, now, accepted);
      if ok {
        r := GetBasket(basket.id, now);
      } else {
        r := None;
      }
    }

    /** Removes the basket; reports whether a live one was there. */
    method DeleteBasket(key: string, now: Millis) returns (removed: bool)
      modifies database
      ensures removed <==> old(database.StringGet(key, now)).Some?
      ensures forall t :: GetBasket(key, t).None?
      ensures forall k, t :: k != key ==> GetBasket(k, t) == old(GetBasket(k, t))
    {
      removed := database.KeyDelete(key, now);
    }
  }
}
