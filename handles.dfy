/** The Android and OpenCV objects the model passes around as handles: a
    `Bitmap` with its size, its ARGB pixels and a recycled flag, and a `Mat`
    with a released flag. Only what the core reads or changes is kept. */
module Handles {

  /** `android.graphics.Bitmap`. `getPixel(x, y)` is `pixels[x, y]`. */
  class Bitmap {
    const width: int
    const height: int
    const pixels: array2<int>
    var recycled: bool

    /** A bitmap always has positive sides and one pixel per position. */
    predicate Valid()
    {
      0 < width && 0 < height && pixels.Length0 == width && pixels.Length1 == height
    }

    /** `Bitmap.createBitmap(w, h, ARGB_8888)`: transparent black pixels. */
    constructor (w: int, h: int)
      requires 0 < w && 0 < h
      ensures width == w && height == h && Valid()
      ensures fresh(pixels) && !recycled
      ensures forall x, y :: 0 <= x < w && 0 <= y < h ==> pixels[x, y] == 0
    {
      width := w;
      height := h;
      pixels := new int[w, h]((x, y) => 0);
      recycled := false;
    }

    /** `Bitmap.recycle()` */
    method Recycle()
      modifies this
      ensures recycled
    {
      recycled := true;
    }
  }

  /** `org.opencv.core.Mat`, whose native memory `release()` frees. */
  class Mat {
    var released: bool

    constructor ()
      ensures !released
    {
      released := false;
    }

    method Release()
      modifies this
      ensures released
    {
      released := true;
    }
  }
}
