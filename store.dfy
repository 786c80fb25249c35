/**
 * The application cache behind Laravel's `Cache` facade, as the captcha
 * service uses it: `put` with a time-to-live and `pull` (read and forget).
 * Expiry is not modelled; the time-to-live given to `put` is recorded.
 */
module Store {
  import opened Php

  /** A cached value: a string, or anything else another part of the application stored. */
  datatype CacheVal = Text(s: string) | Other

  class Cache {
    var entries: map<string, CacheVal>
    var ttl: map<string, Val>

    constructor()
      ensures entries == map[] && ttl == map[]
    {
      entries := map[];
      ttl := map[];
    }

    /** `Cache::put($key, $value, $seconds)`. */
    method Put(key: string, value: string, seconds: Val)
      modifies this
      ensures entries == old(entries)[key := Text(value)]
      ensures ttl == old(ttl)[key := seconds]
    {
      entries := entries[key := Text(value)];
      ttl := ttl[key := seconds];
    }

    /** `Cache::pull($key)`: the stored value, if any, which is removed. */
    method Pull(key: string) returns (v: Option<CacheVal>)
      modifies this
      ensures v == if key in old(entries) then Some(old(entries)[key]) else None
      ensures entries == old(entries) - {key}
      ensures ttl == old(ttl) - {key}
    {
      v := if key in entries then Some(entries[key]) else None;
      entries := entries - {key};
      ttl := ttl - {key};
    }

    /** `Cache::has($key)`. */
    method Has(key: string) returns (b: bool)
      ensures b <==> key in entries
    {
      b := key in entries;
    }
  }
}
