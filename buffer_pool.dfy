/** BufferPool: two first-in first-out free lists, one of OpenCV `Mat`s and
    one of bitmaps of a fixed size, each holding at most five handles. An
    acquire takes the oldest pooled handle or makes a new one; a release
    pools the handle while there is room and otherwise frees it at once;
    `clear` frees everything pooled. */
module BufferPools {
  import opened Common
  import opened Handles

  const MAX_POOL_SIZE: nat := 5

  /** The free list after `add(item)` when the pool has room, or unchanged
      when it is full. */
  function Offer<T>(pool: seq<T>, item: T): seq<T>
  {
    if |pool| < MAX_POOL_SIZE then pool + [item] else pool
  }

  /** Offering keeps a pool within its capacity, never disturbs what is
      already queued, and queues the item exactly when there was room. */
  lemma OfferSpec<T>(pool: seq<T>, item: T)
    requires |pool| <= MAX_POOL_SIZE
    ensures var p := Offer(pool, item);
      |p| <= MAX_POOL_SIZE && p[..|pool|] == pool
      && (|p| == |pool| + 1 <==> |pool| < MAX_POOL_SIZE)
      && (|pool| < MAX_POOL_SIZE ==> p[|pool|] == item)
  {
  }

  /** Handles leave in the order they were offered: after offering `a` and
      then `b` to an empty pool, `a` is at the head and `b` behind it. */
  lemma OfferOrder<T>(a: T, b: T)
    ensures Offer(Offer([], a), b) == [a, b]
  {
  }

  class BufferPool {
    const width: int
    const height: int
    var matPool: seq<Mat>
    var bitmapPool: seq<Bitmap>

    /** Neither free list exceeds its capacity. */
    predicate Valid()
      reads this
    {
      |matPool| <= MAX_POOL_SIZE && |bitmapPool| <= MAX_POOL_SIZE
    }

    /** The width of the bitmap the next `acquireBitmap()` hands out. */
    function NextBitmapWidth(): int
      reads this
    {
      if bitmapPool != [] then bitmapPool[0].width else width
    }

    /** `new BufferPool(width, height)`: both free lists empty. */
    constructor (width: int, height: int)
      ensures this.width == width && this.height == height
      ensures matPool == [] && bitmapPool == [] && Valid()
    {
      this.width := width;
      this.height := height;
      matPool := [];
      bitmapPool := [];
    }

    /** `acquireMat()`: the oldest pooled `Mat`, or a new one. */
    method AcquireMat() returns (mat: Mat)
      requires Valid()
      modifies this
      ensures Valid() && bitmapPool == old(bitmapPool)
      ensures old(matPool) != [] ==> mat == old(matPool)[0] && matPool == old(matPool)[1..]
      ensures old(matPool) == [] ==> fresh(mat) && !mat.released && matPool == []
    {
      if matPool != [] {
        mat := matPool[0];
        matPool := matPool[1..];
      } else {
        mat := new Mat();
      }
    }

    /** `releaseMat(mat)`: pooled while there is room, released otherwise;
        null is ignored. */
    method ReleaseMat(mat: Mat?)
      requires Valid()
      modifies this, mat
      ensures Valid() && bitmapPool == old(bitmapPool)
      ensures mat == null ==> matPool == old(matPool)
      ensures mat != null ==> matPool == Offer(old(matPool), mat)
      ensures mat != null && |old(matPool)| < MAX_POOL_SIZE ==> mat.released == old(mat.released)
      ensures mat != null && |old(matPool)| >= MAX_POOL_SIZE ==> mat.released
    {
      if mat != null && |matPool| < MAX_POOL_SIZE {
        matPool := matPool + [mat];
      } else if mat != null {
        mat.Release();
      }
    }

    /** `acquireBitmap()`: the oldest pooled bitmap, or a new transparent
        one of the pool's size; `createBitmap` throws for a side that is
        not positive. */
    method AcquireBitmap() returns (res: Result<Bitmap>)
      requires Valid()
      modifies this
      ensures Valid() && matPool == old(matPool)
      ensures old(bitmapPool) != [] ==> res == Ok(old(bitmapPool)[0]) && bitmapPool == old(bitmapPool)[1..]
      ensures old(bitmapPool) == [] ==> bitmapPool == [] && (res.Ok? <==> 0 < width && 0 < height)
      ensures old(bitmapPool) == [] && res.Ok? ==>
        fresh(res.value) && fresh(res.value.pixels) && res.value.Valid() && !res.value.recycled
        && res.value.width == width && res.value.height == height
    {
      if bitmapPool != [] {
        res := Ok(bitmapPool[0]);
        bitmapPool := bitmapPool[1..];
      } else if 0 < width && 0 < height {
        var bitmap := new Bitmap(width, height);
        res := Ok(bitmap);
      } else {
        res := Failure("width and height must be > 0");
      }
    }

    /** `releaseBitmap(bitmap)`: pooled while there is room, recycled
        otherwise; null is ignored. */
    method ReleaseBitmap(bitmap: Bitmap?)
      requires Valid()
      modifies this, bitmap
      ensures Valid() && matPool == old(matPool)
      ensures bitmap == null ==> bitmapPool == old(bitmapPool)
      ensures bitmap != null ==> bitmapPool == Offer(old(bitmapPool), bitmap)
      ensures bitmap != null && |old(bitmapPool)| < MAX_POOL_SIZE ==> bitmap.recycled == old(bitmap.recycled)
      ensures bitmap != null && |old(bitmapPool)| >= MAX_POOL_SIZE ==> bitmap.recycled
    {
      if bitmap != null && |bitmapPool| < MAX_POOL_SIZE {
        bitmapPool := bitmapPool + [bitmap];
      } else if bitmap != null {
        bitmap.Recycle();
      }
    }

    /** `clear()`: every pooled `Mat` released, every pooled bitmap
        recycled, both free lists emptied. */
    method Clear()
      modifies this, matPool, bitmapPool
      ensures matPool == [] && bitmapPool == [] && Valid()
      ensures forall mat :: mat in old(matPool) ==> mat.released
      ensures forall b :: b in old(bitmapPool) ==> b.recycled
    {
      var mats, bitmaps := matPool, bitmapPool;
      for i := 0 to |mats|
        invariant forall j :: 0 <= j < i ==> mats[j].released
        modifies mats
      {
        mats[i].Release();
      }
      matPool := [];
      for i := 0 to |bitmaps|
        invariant forall j :: 0 <= j < |mats| ==> mats[j].released
        invariant forall j :: 0 <= j < i ==> bitmaps[j].recycled
        modifies bitmaps
      {
        bitmaps[i].Recycle();
      }
      bitmapPool := [];
    }
  }

  /** Two handles released into an empty pool come back out in release
      order, and neither is freed on the way. */
  method MatPoolIsFifo(a: Mat, b: Mat) returns (first: Mat, second: Mat)
    requires a != b
    modifies a, b
    ensures first == a && second == b
    ensures first.released == old(a.released) && second.released == old(b.released)
  {
    var pool := new BufferPool(1, 1);
    pool.ReleaseMat(a);
    pool.ReleaseMat(b);
    first := pool.AcquireMat();
    second := pool.AcquireMat();
  }
}
