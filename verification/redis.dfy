/** A Redis database: string values under string keys, each with an expiry time. */
module Redis {
  import opened Wrappers
  import opened Domain

  datatype Entry = Entry(value: string, expiresAt: Millis)

  class RedisDatabase {
    var entries: map<string, Entry>

    constructor ()
      ensures entries == map[]
    {
      entries := map[];
    }

    /** The value under the key, unless it is missing or its expiry time has passed. */
    function StringGet(key: string, now: Millis): (r: Option<string>)
      reads this
      ensures r.Some? <==> key in entries && now <= entries[key].expiresAt
      ensures r.Some? ==> r.value == entries[key].value
    {
      if key in entries && now <= entries[key].expiresAt then Some(entries[key].value) else None
    }

    /**
     * Stores the value under the key, replacing any earlier value and its
     * expiry. `accepted` is the server's answer.
     */
    method StringSet(key: string, value: string, ttl: Millis, now: Millis, accepted: bool) returns (ok: bool)
      requires ttl > 0
      modifies this
      ensures ok == accepted
      ensures ok ==> entries == old(entries)[key := Entry(value, now + ttl)]
      ensures !ok ==> entries == old(entries)
      ensures ok ==> forall t :: now <= t <= now + ttl ==> StringGet(key, t) == Some(value)
      ensures ok ==> StringGet(key, now + ttl + 1).None?
      ensures forall k, t :: k != key ==> StringGet(k, t) == old(StringGet(k, t))
    {
      ok := accepted;
      if accepted {
        entries := entries[key := Entry(value, now + ttl)];
      }
    }

    /** Removes the key; reports whether it held a live value. */
    method KeyDelete(key: string, now: Millis) returns (removed: bool)
      modifies this
      ensures removed <==> old(StringGet(key, now)).Some?
      ensures entries == old(entries) - {key}
      ensures forall t :: StringGet(key, t).None?
      ensures forall k, t :: k != key ==> StringGet(k, t) == old(StringGet(k, t))
    {
      removed := StringGet(key, now).Some?;
      entries := entries - {key};
    }
  }
}
