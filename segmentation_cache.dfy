/** SegmentationCache: segmentation results kept under a string key for 60
    seconds, with hit and miss counters. The size-bounded least-recently-used
    eviction of Android's `LruCache` is not computed: each `put` is told
    which keys the eviction drops. */
module SegmentationCaches {
  import opened Common
  import opened Handles

  const MAX_CACHE_SIZE_MB: int := 10
  const VALIDITY_MS: int := 60000
  const LONG_MAX: int := 0x7fff_ffff_ffff_ffff

  /** Java's `(int)` cast of a `long`: the low 32 bits, read as signed. */
  function ToJavaInt(x: int): (r: int)
    ensures -0x8000_0000 <= r < 0x8000_0000
    ensures (r - x) % 0x1_0000_0000 == 0
    ensures -0x8000_0000 <= x < 0x8000_0000 ==> r == x
  {
    (x + 0x8000_0000) % 0x1_0000_0000 - 0x8000_0000
  }

  /** The capacity in KB: `Math.min(MAX_CACHE_SIZE_MB * 1024, maxMemory / 8)`
      where `maxMemory = (int) (Runtime.maxMemory() / 1024)`. */
  function CacheSize(runtimeMaxMemory: int): int
  {
    Min(MAX_CACHE_SIZE_MB * 1024, JavaDiv(ToJavaInt(JavaDiv(runtimeMaxMemory, 1024)), 8))
  }

  /** For any heap limit below 2 TiB the capacity is an eighth of the heap
      in KB, capped at 10 MB: never negative, and the cap is reached exactly
      from an 80 MiB heap on. */
  lemma CacheSizeSpec(runtimeMaxMemory: int)
    requires 0 <= runtimeMaxMemory < 0x8000_0000 * 1024
    ensures CacheSize(runtimeMaxMemory) == Min(10240, runtimeMaxMemory / 8192)
    ensures 0 <= CacheSize(runtimeMaxMemory) <= 10240
    ensures CacheSize(runtimeMaxMemory) == 10240 <==> runtimeMaxMemory >= 10240 * 8192
  {
    var a := runtimeMaxMemory;
    var q1, r1 := a / 1024, a % 1024;
    var q2, r2 := q1 / 8, q1 % 8;
    assert a == q2 * 8192 + (r2 * 1024 + r1);
    DivModUnique(a, 8192, q2, r2 * 1024 + r1);
  }

  /** A runtime without a heap limit reports `Long.MAX_VALUE`; its KB count
      does not fit an `int`, the cast wraps it to -1, and the capacity comes
      out as 0. */
  lemma CacheSizeUnlimitedHeap()
    ensures CacheSize(LONG_MAX) == 0
  {
    assert JavaDiv(LONG_MAX, 1024) == 0x1f_ffff_ffff_ffff;
    assert ToJavaInt(0x1f_ffff_ffff_ffff) == -1;
  }

  /** A stored entry: the data, its size in KB and when it was stored. */
  datatype CachedResult<D> = CachedResult(data: D, sizeKb: int, timestamp: int)

  /** `CachedResult.isExpired()`: older than 60 seconds, strictly. */
  predicate IsExpired<D>(entry: CachedResult<D>, now: int)
  {
    now - entry.timestamp > VALIDITY_MS
  }

  /** An entry stays expired as time goes on, and is not expired at exactly
      60 seconds of age. */
  lemma ExpiryMonotone<D>(entry: CachedResult<D>, now1: int, now2: int)
    ensures now1 <= now2 && IsExpired(entry, now1) ==> IsExpired(entry, now2)
    ensures !IsExpired(entry, entry.timestamp + VALIDITY_MS)
  {
  }

  /** What `get(key)` returns from the map `cache` at time `now`. */
  function Lookup<D>(cache: map<string, CachedResult<D>>, key: string, now: int): Option<D>
  {
    if key in cache && !IsExpired(cache[key], now) then Some(cache[key].data) else None
  }

  /** The map after `put(key, data, sizeKb)` at `now`, once the eviction has
      dropped the keys in `evicted`. */
  function Stored<D>(cache: map<string, CachedResult<D>>, key: string, data: D, sizeKb: int,
                     now: int, evicted: set<string>): map<string, CachedResult<D>>
  {
    cache[key := CachedResult(data, sizeKb, now)] - evicted
  }

  /** `get` answers with the stored data exactly when the key is present and
      at most 60 seconds old. */
  lemma LookupSpec<D>(cache: map<string, CachedResult<D>>, key: string, now: int)
    ensures Lookup(cache, key, now).Some? <==>
      key in cache && now - cache[key].timestamp <= VALIDITY_MS
    ensures Lookup(cache, key, now).Some? ==> Lookup(cache, key, now).value == cache[key].data
    ensures forall later :: later >= now && Lookup(cache, key, now).None? && key in cache ==>
      Lookup(cache, key, later).None?
  {
  }

  /** A `put` that survives eviction is read back for the next 60 seconds,
      replacing whatever was stored under the key; other keys keep their
      entries unless evicted. */
  lemma PutThenGet<D>(cache: map<string, CachedResult<D>>, key: string, data: D, sizeKb: int,
                      stored: int, now: int, evicted: set<string>)
    requires key !in evicted
    ensures stored <= now <= stored + VALIDITY_MS ==>
      Lookup(Stored(cache, key, data, sizeKb, stored, evicted), key, now) == Some(data)
    ensures now > stored + VALIDITY_MS ==>
      Lookup(Stored(cache, key, data, sizeKb, stored, evicted), key, now) == None
    ensures forall k :: k != key && k !in evicted ==>
      Lookup(Stored(cache, key, data, sizeKb, stored, evicted), k, now) == Lookup(cache, k, now)
  {
  }

  /** `generateKey(bitmap, mode, sensitivity)`:
      `"%dx%d_%s_%d_%d"` of width, height, mode, sensitivity and the
      bitmap's identity hash code. */
  function GenerateKey(bitmap: Bitmap, mode: string, sensitivity: int, hashCode: int): string
  {
    IntToDecimal(bitmap.width) + ("x" + (IntToDecimal(bitmap.height) + KeyTail(mode, sensitivity, hashCode)))
  }

  /** The part of the key after the height: `"_%s_%d_%d"`. */
  function KeyTail(mode: string, sensitivity: int, hashCode: int): (s: string)
    ensures s != [] && s[0] == '_'
  {
    "_" + mode + "_" + IntToDecimal(sensitivity) + "_" + IntToDecimal(hashCode)
  }

  /** Two digit strings each followed by a non-digit split a string in the
      same place. */
  lemma DigitsSplit(a: string, ra: string, b: string, rb: string)
    requires AllDigits(a) && AllDigits(b)
    requires ra != [] && rb != [] && !('0' <= ra[0] <= '9') && !('0' <= rb[0] <= '9')
    requires a + ra == b + rb
    ensures a == b && ra == rb
  {
    assert a == (a + ra)[..|a|];
    assert b == (b + rb)[..|b|];
  }

  /** Decimal numerals of different numbers differ. */
  lemma DecimalInjective(m: nat, n: nat)
    requires NatToDecimal(m) == NatToDecimal(n)
    ensures m == n
  {
    DecimalRoundTrip(m);
    DecimalRoundTrip(n);
  }

  /** Bitmaps of different sizes never share a key: the width is read back
      up to the 'x', the height up to the following '_'. */
  lemma KeySeparatesSizes(b1: Bitmap, b2: Bitmap, mode1: string, mode2: string,
                          s1: int, s2: int, h1: int, h2: int)
    requires b1.Valid() && b2.Valid()
    requires GenerateKey(b1, mode1, s1, h1) == GenerateKey(b2, mode2, s2, h2)
    ensures b1.width == b2.width && b1.height == b2.height
  {
    var w1, w2 := NatToDecimal(b1.width), NatToDecimal(b2.width);
    var t1, t2 := NatToDecimal(b1.height), NatToDecimal(b2.height);
    var rest1, rest2 := KeyTail(mode1, s1, h1), KeyTail(mode2, s2, h2);
    assert IntToDecimal(b1.width) == w1 && IntToDecimal(b2.width) == w2;
    assert IntToDecimal(b1.height) == t1 && IntToDecimal(b2.height) == t2;
    DigitsSplit(w1, "x" + (t1 + rest1), w2, "x" + (t2 + rest2));
    DecimalInjective(b1.width, b2.width);
    assert t1 + rest1 == ("x" + (t1 + rest1))[1..];
    assert t2 + rest2 == ("x" + (t2 + rest2))[1..];
    DigitsSplit(t1, rest1, t2, rest2);
    DecimalInjective(b1.height, b2.height);
  }

  class SegmentationCache<D> {
    const maxSize: int
    var cache: map<string, CachedResult<D>>
    var hits: int
    var misses: int

    /** `new SegmentationCache()` on a runtime whose heap limit is
        `runtimeMaxMemory`; `LruCache` rejects a capacity that is not
        positive. */
    constructor (runtimeMaxMemory: int)
      requires CacheSize(runtimeMaxMemory) > 0
      ensures maxSize == CacheSize(runtimeMaxMemory)
      ensures cache == map[] && hits == 0 && misses == 0
    {
      maxSize := CacheSize(runtimeMaxMemory);
      cache := map[];
      hits := 0;
      misses := 0;
    }

    /** `get(key)` at `now`: exactly one of the counters goes up, and an
        expired entry is left in place. */
    method Get(key: string, now: int) returns (r: Option<D>)
      modifies this
      ensures r == Lookup(cache, key, now) && cache == old(cache)
      ensures r.Some? ==> hits == old(hits) + 1 && misses == old(misses)
      ensures r.None? ==> misses == old(misses) + 1 && hits == old(hits)
    {
      if key in cache && !IsExpired(cache[key], now) {
        hits := hits + 1;
        r := Some(cache[key].data);
      } else {
        misses := misses + 1;
        r := None;
      }
    }

    /** `put(key, data, sizeKb)` at `now`; `evicted` are the keys the
        least-recently-used policy drops to stay within `maxSize`. */
    method Put(key: string, data: D, sizeKb: int, now: int, evicted: set<string>)
      modifies this
      ensures cache == Stored(old(cache), key, data, sizeKb, now, evicted)
      ensures hits == old(hits) && misses == old(misses)
    {
      cache := cache[key := CachedResult(data, sizeKb, now)] - evicted;
    }

    /** `clear()`: no entries, both counters zero. */
    method Clear()
      modifies this
      ensures cache == map[] && hits == 0 && misses == 0
    {
      cache := map[];
      hits := 0;
      misses := 0;
    }
  }
}
