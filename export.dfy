/** The export pipeline of `applyFiltersToBitmapFromUri`: rotate the decoded
    bitmap when its orientation asks for it (recycling the original), draw
    it through the combined colour filter onto a fresh ARGB_8888 bitmap of
    the rotated size, and recycle the bitmap that was drawn. Bitmaps are
    modelled by their size, their recycled flag, a count of `recycle` calls
    and the colour filter they were last drawn with; their pixels are not. */
module Export {
  import opened ColorMatrices
  import opened Filters
  import opened Composition
  import opened Orientation
  import opened Options

  /** A platform bitmap, as far as the pipeline uses one. */
  class Bitmap {
    const width: nat
    const height: nat
    var isRecycled: bool
    /** How many times `recycle` has been called on this bitmap. */
    ghost var recycleCount: nat
    /** The colour filter of the last `drawBitmap` onto this bitmap. */
    ghost var drawnWith: Option<Matrix>
    /** The bitmap last drawn onto this one. */
    ghost var drawnFrom: Option<Bitmap>

    /** `Bitmap.createBitmap(width, height, Config.ARGB_8888)`: a live,
        blank bitmap. */
    constructor (w: nat, h: nat)
      ensures width == w && height == h
      ensures !isRecycled && recycleCount == 0 && drawnWith == None && drawnFrom == None
    {
      width, height := w, h;
      isRecycled, recycleCount, drawnWith, drawnFrom := false, 0, None, None;
    }

    /** `recycle()`: frees the pixels; the bitmap is dead from now on. */
    method Recycle()
      modifies this
      ensures isRecycled && recycleCount == old(recycleCount) + 1
      ensures drawnWith == old(drawnWith) && drawnFrom == old(drawnFrom)
    {
      isRecycled := true;
      recycleCount := recycleCount + 1;
    }
  }

  /** `Bitmap.createBitmap(src, 0, 0, src.width, src.height, m, true)` with
      `m` a rotation by `deg`: a new, live bitmap whose size is the rotated
      size of `src`. */
  method CreateRotatedBitmap(src: Bitmap, deg: int) returns (rotated: Bitmap)
    requires !src.isRecycled
    ensures fresh(rotated) && !rotated.isRecycled && rotated.recycleCount == 0
    ensures (rotated.width, rotated.height) == RotatedSize(src.width, src.height, deg)
  {
    var size := RotatedSize(src.width, src.height, deg);
    rotated := new Bitmap(size.0, size.1);
  }

  /** `Canvas(target).drawBitmap(src, 0f, 0f, paint)` with
      `paint.colorFilter = ColorMatrixColorFilter(filter)`. */
  method DrawFiltered(target: Bitmap, src: Bitmap, filter: Matrix)
    requires !target.isRecycled && !src.isRecycled
    modifies target
    ensures target.drawnWith == Some(filter) && target.drawnFrom == Some(src)
    ensures target.isRecycled == old(target.isRecycled) && target.recycleCount == old(target.recycleCount)
  {
    target.drawnWith, target.drawnFrom := Some(filter), Some(src);
  }

  /** `applyFiltersToBitmapFromUri`, from the decoded bitmap (absent when
      decoding failed) and the image's metadata on; the rotation is
      `getBitmapRotation`'s, read from that metadata. The result is absent
      exactly when decoding failed. Otherwise:
      - the result is a fresh, live bitmap of the rotated size drawn with
        the same combined matrix the preview uses;
      - the decoded bitmap is recycled exactly once, whether or not it was
        rotated;
      - with rotation 0 the decoded bitmap itself is drawn (no copy);
        otherwise a fresh rotated copy is drawn and then recycled, exactly
        once. */
  method ApplyFiltersToBitmapFromUri(decoded: Bitmap?, exif: Exif, st: Adjustments,
                                     saturation: real -> Matrix)
    returns (filtered: Bitmap?, ghost drawn: Bitmap?)
    requires decoded != null ==> !decoded.isRecycled
    modifies decoded
    ensures decoded == null <==> filtered == null
    ensures decoded == null ==> drawn == null
    ensures decoded != null ==>
              && filtered != null && fresh(filtered) && !filtered.isRecycled
              && (filtered.width, filtered.height) == RotatedSize(decoded.width, decoded.height, BitmapRotation(ReadOrientation(exif)))
              && filtered.drawnWith == Some(Combined(st, Factories(st, saturation)))
              && filtered.drawnFrom.Some? && filtered.drawnFrom.value == drawn
    ensures decoded != null ==> decoded.isRecycled && decoded.recycleCount == old(decoded.recycleCount) + 1
    ensures decoded != null ==> drawn != null && drawn.isRecycled && drawn != filtered
    ensures decoded != null ==> (BitmapRotation(ReadOrientation(exif)) == 0 <==> drawn == decoded)
    ensures decoded != null && BitmapRotation(ReadOrientation(exif)) != 0 ==>
              && fresh(drawn) && drawn.recycleCount == 1
              && (drawn.width, drawn.height) == RotatedSize(decoded.width, decoded.height, BitmapRotation(ReadOrientation(exif)))
  {
    if decoded == null {
      return null, null;
    }
    var rotation := BitmapRotation(ReadOrientation(exif));
    var rotatedBitmap: Bitmap;
    if rotation != 0 {
      rotatedBitmap := CreateRotatedBitmap(decoded, rotation);
      if !decoded.isRecycled {
        decoded.Recycle();
      }
    } else {
      rotatedBitmap := decoded;
    }
    var cm := ComposeFilters(st, saturation);
    var filter := cm.Current();
    filtered := new Bitmap(rotatedBitmap.width, rotatedBitmap.height);
    DrawFiltered(filtered, rotatedBitmap, filter);
    if !rotatedBitmap.isRecycled {
      rotatedBitmap.Recycle();
    }
    drawn := rotatedBitmap;
  }
}
