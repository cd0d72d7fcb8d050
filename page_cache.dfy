/**
 * The expiring cache in front of the API's list endpoint. An entry holds one page
 * of the list and the clock reading at which it expires; a lookup before that
 * reading is a hit and returns the stored page without reading the store.
 */
module PageCache {
  import opened Notifications
  import Pagination
  import CacheKeys

  /** Seconds a cached page stays fresh. */
  const Ttl := 60

  datatype Entry = Entry(data: seq<Notification>, expiresAt: nat)

  /** A page fit to be served for limit `limit`: at most `limit` records, newest first. */
  predicate PageFor(data: seq<Notification>, limit: nat) {
    |data| <= limit && Pagination.NewestFirst(data)
  }

  class ListCache {
    var entries: map<string, Entry>

    /** Every page cached under the key of (page, limit) is fit for that limit. */
    ghost predicate Valid()
      reads this
    {
      forall page: nat, limit: nat :: CacheKeys.CacheKey(page, limit) in entries ==>
        PageFor(entries[CacheKeys.CacheKey(page, limit)].data, limit)
    }

    constructor ()
      ensures Valid() && entries == map[]
    {
      entries := map[];
    }

    /** Whether `key` holds a page that has not yet expired at clock reading `now`. */
    predicate Hit(key: string, now: nat)
      reads this
    {
      key in entries && now < entries[key].expiresAt
    }

    /**
     * Store the page `data` of (page, limit) under that pair's key, fresh for `Ttl`
     * from `now`; a page fit for `limit` keeps the cache valid.
     */
    method Fill(page: nat, limit: nat, data: seq<Notification>, now: nat)
      requires Valid() && PageFor(data, limit)
      modifies this
      ensures Valid()
      ensures entries == old(entries)[CacheKeys.CacheKey(page, limit) := Entry(data, now + Ttl)]
    {
      FillKeepsValid(entries, page, limit, data, now + Ttl);
      entries := entries[CacheKeys.CacheKey(page, limit) := Entry(data, now + Ttl)];
    }
  }

  /**
   * Filling the entry of (page, limit) with a page fit for `limit` keeps the cache
   * valid: no other pair shares that key.
   */
  lemma FillKeepsValid(entries: map<string, Entry>, page: nat, limit: nat, data: seq<Notification>, expiresAt: nat)
    requires forall p: nat, l: nat :: CacheKeys.CacheKey(p, l) in entries ==> PageFor(entries[CacheKeys.CacheKey(p, l)].data, l)
    requires PageFor(data, limit)
    ensures var updated := entries[CacheKeys.CacheKey(page, limit) := Entry(data, expiresAt)];
      forall p: nat, l: nat :: CacheKeys.CacheKey(p, l) in updated ==> PageFor(updated[CacheKeys.CacheKey(p, l)].data, l)
  {
    var key := CacheKeys.CacheKey(page, limit);
    var updated := entries[key := Entry(data, expiresAt)];
    forall p: nat, l: nat | CacheKeys.CacheKey(p, l) in updated
      ensures PageFor(updated[CacheKeys.CacheKey(p, l)].data, l)
    {
      if CacheKeys.CacheKey(p, l) == key {
        CacheKeys.CacheKeyInjective(p, l, page, limit);
      }
    }
  }
}
