/** The process-wide cache the fetcher sessions share (global.nodeHelper.cache): get(key)
    and set(key, value, ttl), where an entry is logically expired once its time to live
    has elapsed. Its implementation lives in the host and is not part of this model;
    this module gives it the time-to-live meaning the fetcher relies on, with the clock
    passed in as `now` (epoch milliseconds). */
module Cache {
  import opened Seqs
  import opened Normalizer

  /** The two kinds of key one calendar uses: `calendar_cache_<url>` for the fetch
      metadata and `calendar_cache_<url>_page_<n>` for page n. */
  datatype CacheKey = MetaKey(url: string) | PageKey(url: string, page: int)

  /** The page record written after a successful fetch. */
  datatype CachedPage = CachedPage(events: seq<Event>, hasMore: bool, totalEvents: nat)

  /** The metadata record: when the calendar was last fetched and how many pages it has. */
  datatype CachedMeta = CachedMeta(lastFetch: int, totalPages: PageCount)

  datatype CacheValue = PageValue(page: CachedPage) | MetaValue(meta: CachedMeta)

  /** A stored value and the instant from which it reads as expired. */
  datatype Stored = Stored(value: CacheValue, expiresAt: int)

  type Table = map<CacheKey, Stored>

  /** get(key) at time now: the stored value while it has not expired, else nothing. */
  function Lookup(entries: Table, key: CacheKey, now: int): (r: Option<CacheValue>)
    ensures r.Some? <==> key in entries && now < entries[key].expiresAt
    ensures r.Some? ==> r.value == entries[key].value
  {
    if key in entries && now < entries[key].expiresAt then Some(entries[key].value) else None
  }

  /** set(key, value, ttl) at time now. */
  function Write(entries: Table, key: CacheKey, value: CacheValue, ttl: int, now: int): Table
  {
    entries[key := Stored(value, now + ttl)]
  }

  /** A value written at time t reads back for exactly ttl milliseconds, and writing
      one key leaves what every other key reads unchanged. */
  lemma WriteThenLookup(entries: Table, key: CacheKey, value: CacheValue, ttl: int, t: int, now: int, other: CacheKey)
    ensures Lookup(Write(entries, key, value, ttl, t), key, now) == if now < t + ttl then Some(value) else None
    ensures other != key ==> Lookup(Write(entries, key, value, ttl, t), other, now) == Lookup(entries, other, now)
  {
  }

  class Store {
    var entries: Table

    constructor()
      ensures entries == map[]
    {
      entries := map[];
    }

    method Get(key: CacheKey, now: int) returns (r: Option<CacheValue>)
      ensures r == Lookup(entries, key, now)
    {
      if key in entries && now < entries[key].expiresAt {
        r := Some(entries[key].value);
      } else {
        r := None;
      }
    }

    method Set(key: CacheKey, value: CacheValue, ttl: int, now: int)
      modifies this
      ensures entries == Write(old(entries), key, value, ttl, now)
    {
      entries := entries[key := Stored(value, now + ttl)];
    }
  }
}
