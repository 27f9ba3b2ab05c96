/** Response caching in Redis: text values under request keys, with an expiry. */
module CacheRepository {
  import opened Wrappers
  import opened Domain
  import opened Redis

  class CacheRepository {
    const database: RedisDatabase

    constructor (database: RedisDatabase)
      ensures this.database == database
    {
      this.database := database;
    }

    /** The cached text; a missing, expired or empty value reads as absent. */
    function Get(cacheKey: string, now: Millis): (r: Option<string>)
      reads database
      ensures r.Some? ==> r.value != [] && database.StringGet(cacheKey, now) == r
      ensures r.None? ==> database.StringGet(cacheKey, now) in {None, Some([])}
    {
      var stored := database.StringGet(cacheKey, now);
      if stored.None? || stored.value == [] then None else stored
    }

    /** Caches the text for the time to live; the store's answer is not looked at. */
    method Set(cacheKey: string, cacheValue: string, timeToLive: Millis, now: Millis, accepted: bool)
      requires timeToLive > 0
      modifies database
      ensures accepted ==> database.entries == old(database.entries)[cacheKey := Entry(cacheValue, now + timeToLive)]
      ensures !accepted ==> database.entries == old(database.entries)
      ensures accepted && cacheValue != [] ==>
        forall t :: now <= t <= now + timeToLive ==> Get(cacheKey, t) == Some(cacheValue)
      ensures forall k, t :: k != cacheKey ==> Get(k, t) == old(Get(k, t))
    {
      var _ := database.StringSet(cacheKey, cacheValue, timeToLive, now, accepted);
    }
  }
}
