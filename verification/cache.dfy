/**
 * The in-memory TTL cache of the infrastructure layer (`CacheService`):
 * string keys mapped to a value and an expiration instant, evicted lazily by
 * `get` or in bulk by `cleanExpired`.
 *
 * The model is sequential. The cache is an immutable `map` threaded through
 * the operations, the clock is an explicit `now`, and a supplier is given by
 * the value it would produce together with a flag telling whether it ran.
 */
module Cache {
  import opened Common

  /** A `CacheEntry`: the stored value and the instant after which it is stale. */
  datatype Entry<V> = Entry(value: V, expiration: Instant)

  /** The backing map from key to entry. */
  type Store<V> = map<string, Entry<V>>

  /** `CacheEntry.isExpired`: stale strictly after the expiration instant. */
  predicate IsExpired<V>(e: Entry<V>, now: Instant) {
    now > e.expiration
  }

  /** An entry is live up to and including its expiration instant, and stays stale once stale. */
  lemma ExpiryBoundary<V>(e: Entry<V>, now: Instant, later: Instant)
    ensures !IsExpired(e, e.expiration)
    ensures IsExpired(e, e.expiration + 1)
    ensures IsExpired(e, now) && now <= later ==> IsExpired(e, later)
  {
  }

  /** The entries of `c` still live at `now`. */
  function LiveEntries<V>(c: Store<V>, now: Instant): (r: Store<V>)
    ensures r.Keys <= c.Keys
    ensures forall k :: k in r <==> k in c && !IsExpired(c[k], now)
    ensures forall k :: k in r ==> r[k] == c[k]
  {
    map k | k in c && !IsExpired(c[k], now) :: c[k]
  }

  /** `put(key, value, ttl)`: stores the value until `now + ttl`, replacing any entry for the key. */
  function Put<V>(c: Store<V>, k: string, v: V, ttl: int, now: Instant): (r: Store<V>)
    ensures k in r && r[k] == Entry(v, now + ttl)
    ensures r.Keys == c.Keys + {k}
    ensures forall j :: j in c && j != k ==> r[j] == c[j]
    ensures |r| == if k in c then |c| else |c| + 1
  {
    c[k := Entry(v, now + ttl)]
  }

  /** What `get` answers, and the cache it leaves behind. */
  datatype Lookup<V> = Lookup(value: Option<V>, cache: Store<V>)

  /**
   * `get(key)`: a live entry's value, or null; a stale entry found under the
   * key is removed and no other key is touched.
   */
  function Get<V>(c: Store<V>, k: string, now: Instant): (r: Lookup<V>)
    ensures r.value.Some? <==> k in c && !IsExpired(c[k], now)
    ensures r.value.Some? ==> r.value.value == c[k].value
    ensures k in r.cache <==> r.value.Some?
    ensures k in r.cache ==> r.cache[k] == c[k]
    ensures forall j :: j != k ==> (j in r.cache <==> j in c)
    ensures forall j :: j in r.cache && j != k ==> r.cache[j] == c[j]
  {
    if k in c && !IsExpired(c[k], now) then Lookup(Some(c[k].value), c)
    else if k in c then Lookup(None, c - {k})
    else Lookup(None, c)
  }

  /** `remove(key)`: drops the key, and only the key. */
  function Remove<V>(c: Store<V>, k: string): (r: Store<V>)
    ensures r.Keys == c.Keys - {k}
    ensures forall j :: j in r ==> r[j] == c[j]
    ensures |r| == if k in c then |c| - 1 else |c|
  {
    c - {k}
  }

  /** `clear()`: no entry remains. */
  function Clear<V>(c: Store<V>): (r: Store<V>)
    ensures forall k :: k !in r
    ensures |r| == 0
  {
    map[]
  }

  /** `size()`: every stored entry counts, stale ones not yet evicted included. */
  function Size<V>(c: Store<V>): (n: nat)
    ensures n == |c.Keys|
  {
    |c|
  }

  /** Dropping a present key shrinks a map by exactly one entry. */
  lemma RemoveOneCount<V>(m: Store<V>, k: string)
    requires k in m
    ensures (m - {k}).Keys == m.Keys - {k}
    ensures |m - {k}| == |m| - 1
  {
    assert (m - {k}).Keys == m.Keys - {k};
  }

  /** For a sub-map, the keys it lacks number the difference of the sizes. */
  lemma MissingKeysCount<V>(c: Store<V>, r: Store<V>)
    requires r.Keys <= c.Keys
    ensures |c.Keys - r.Keys| == |c| - |r|
  {
    assert c.Keys == r.Keys + (c.Keys - r.Keys);
  }

  /** A sub-map agreeing with `c` that holds exactly its live keys is `LiveEntries(c, now)`. */
  lemma LiveEntriesUnique<V>(c: Store<V>, r: Store<V>, now: Instant)
    requires forall k :: k in r ==> k in c && r[k] == c[k]
    requires forall k :: k in c ==> (k in r <==> !IsExpired(c[k], now))
    ensures r == LiveEntries(c, now)
  {
    var l := LiveEntries(c, now);
    assert r.Keys == l.Keys;
  }

  /**
   * `cleanExpired()`: walks the keys once, dropping each entry stale at
   * `now`; returns the cleaned cache and how many entries it dropped.
   */
  method CleanExpired<V>(c: Store<V>, now: Instant) returns (r: Store<V>, removed: nat)
    ensures r == LiveEntries(c, now)
    ensures removed == |c| - |r|
    ensures removed == |c.Keys - r.Keys|
  {
    r := c;
    removed := 0;
    var todo := c.Keys;
    while todo != {}
      invariant todo <= r.Keys <= c.Keys
      invariant forall k :: k in r ==> r[k] == c[k]
      invariant forall k :: k in c && k !in todo ==> (k in r <==> !IsExpired(c[k], now))
      invariant removed + |r| == |c|
      decreases |todo|
    {
      var k :| k in todo;
      if IsExpired(r[k], now) {
        RemoveOneCount(r, k);
        r := r - {k};
        removed := removed + 1;
      }
      todo := todo - {k};
    }
    LiveEntriesUnique(c, r, now);
    MissingKeysCount(c, r);
  }

  /** Result of `getOrCompute`: the value returned, the cache afterwards, and whether the supplier ran. */
  datatype Computed<V> = Computed(value: V, cache: Store<V>, invoked: bool)

  /**
   * `getOrCompute(key, supplier, ttl)`: a live hit returns the cached value
   * without running the supplier or changing the cache; otherwise the
   * supplier's value `supplied` is stored until `now + ttl` and returned.
   */
  function GetOrCompute<V>(c: Store<V>, k: string, supplied: V, ttl: int, now: Instant): (r: Computed<V>)
    ensures r.invoked <==> !(k in c && !IsExpired(c[k], now))
    ensures !r.invoked ==> r.value == c[k].value && r.cache == c
    ensures r.invoked ==> r.value == supplied && r.cache == Put(c, k, supplied, ttl, now)
  {
    if k in c && !IsExpired(c[k], now) then Computed(c[k].value, c, false)
    else Computed(supplied, c[k := Entry(supplied, now + ttl)], true)
  }

  /** After `put` at `now`, `get` returns the value up to `now + ttl` and nothing afterwards. */
  lemma PutThenGet<V>(c: Store<V>, k: string, v: V, ttl: int, now: Instant, t: Instant)
    ensures t <= now + ttl ==> Get(Put(c, k, v, ttl, now), k, t).value == Some(v)
    ensures t > now + ttl ==> Get(Put(c, k, v, ttl, now), k, t).value.None?
    ensures forall j :: j != k ==> Get(Put(c, k, v, ttl, now), j, t).value == Get(c, j, t).value
  {
  }

  /** After `remove`, the key is absent at every time and every other key answers as before. */
  lemma RemoveThenGet<V>(c: Store<V>, k: string, t: Instant)
    ensures Get(Remove(c, k), k, t).value.None?
    ensures forall j :: j != k ==> Get(Remove(c, k), j, t).value == Get(c, j, t).value
  {
  }

  /** After `clear`, the size is zero and every key misses. */
  lemma ClearThenGet<V>(c: Store<V>, k: string, t: Instant)
    ensures Size(Clear(c)) == 0
    ensures Get(Clear(c), k, t).value.None?
  {
  }

  /**
   * Cleaning is invisible to `get` at `now` and any later time, and cleaning
   * twice at the same instant removes nothing more.
   */
  lemma CleanInvisibleToGet<V>(c: Store<V>, now: Instant, k: string, t: Instant)
    requires now <= t
    ensures Get(LiveEntries(c, now), k, t).value == Get(c, k, t).value
    ensures LiveEntries(LiveEntries(c, now), now) == LiveEntries(c, now)
  {
    if k in c && IsExpired(c[k], now) {
      ExpiryBoundary(c[k], now, t);
    }
  }

  /**
   * With a non-negative TTL, the value `getOrCompute` returns is what `get`
   * then finds, and a second `getOrCompute` at the same instant is a hit that
   * returns the same value without running its supplier.
   */
  lemma GetOrComputeCaches<V>(c: Store<V>, k: string, s1: V, s2: V, ttl: int, now: Instant)
    requires ttl >= 0
    ensures var r := GetOrCompute(c, k, s1, ttl, now);
      && Get(r.cache, k, now).value == Some(r.value)
      && !GetOrCompute(r.cache, k, s2, ttl, now).invoked
      && GetOrCompute(r.cache, k, s2, ttl, now).value == r.value
  {
  }

  /** On a live hit `getOrCompute` and `get` agree; on a miss `get` returns null. */
  lemma GetOrComputeAgreesWithGet<V>(c: Store<V>, k: string, s: V, ttl: int, now: Instant)
    ensures var r := GetOrCompute(c, k, s, ttl, now);
      && (!r.invoked <==> Get(c, k, now).value.Some?)
      && (!r.invoked ==> Get(c, k, now).value == Some(r.value))
  {
  }
}
