/** How the activity turns an image's EXIF orientation tag into a rotation
    in degrees (`getBitmapRotation`), and the size a bitmap has once rotated
    by that many degrees. The tag values are the orientation codes of the
    EXIF standard (Exif 2.3, tag 0x0112 "Orientation"). */
module Orientation {
  import opened Options

  /** EXIF orientation codes, as the platform's `ExifInterface` names them. */
  const ORIENTATION_NORMAL: int := 1
  const ORIENTATION_ROTATE_180: int := 3
  const ORIENTATION_ROTATE_90: int := 6
  const ORIENTATION_ROTATE_270: int := 8

  /** What reading the image's metadata yields: no stream could be opened,
      or a stream whose orientation tag may be missing. */
  datatype Exif = NoStream | Exif(tag: Option<int>)

  /** `exif?.getAttributeInt(TAG_ORIENTATION, ORIENTATION_NORMAL)`: nothing
      when there is no stream, the tag when present, `ORIENTATION_NORMAL`
      when the tag is missing. */
  function ReadOrientation(e: Exif): (o: Option<int>)
    ensures e == NoStream <==> o == None
    ensures e == Exif(None) ==> o == Some(ORIENTATION_NORMAL)
    ensures e.Exif? && e.tag.Some? ==> o == e.tag
  {
    match e
    case NoStream => None
    case Exif(tag) => if tag.Some? then tag else Some(ORIENTATION_NORMAL)
  }

  /** `getBitmapRotation`'s `when`: the three rotation codes give their
      angle, anything else (including no orientation at all) gives 0. */
  function BitmapRotation(o: Option<int>): (deg: int)
    ensures deg in {0, 90, 180, 270}
    ensures deg == 90 <==> o == Some(ORIENTATION_ROTATE_90)
    ensures deg == 180 <==> o == Some(ORIENTATION_ROTATE_180)
    ensures deg == 270 <==> o == Some(ORIENTATION_ROTATE_270)
  {
    if o == Some(ORIENTATION_ROTATE_90) then 90
    else if o == Some(ORIENTATION_ROTATE_180) then 180
    else if o == Some(ORIENTATION_ROTATE_270) then 270
    else 0
  }

  /** No rotation exactly when the orientation is not one of the three
      rotation codes; in particular for a normal image, an unreadable stream
      or a missing tag. */
  lemma NoRotationUnlessRotated(e: Exif)
    ensures BitmapRotation(ReadOrientation(e)) == 0
        <==> ReadOrientation(e) !in {Some(ORIENTATION_ROTATE_90), Some(ORIENTATION_ROTATE_180), Some(ORIENTATION_ROTATE_270)}
    ensures e == NoStream || e == Exif(None) || e == Exif(Some(ORIENTATION_NORMAL))
        ==> BitmapRotation(ReadOrientation(e)) == 0
  {
  }

  /** The size of a `width` x `height` bitmap rotated by `deg` degrees, for
      the quarter turns `getBitmapRotation` produces: a quarter or
      three-quarter turn swaps the sides, a half turn or none keeps them. */
  function RotatedSize(width: nat, height: nat, deg: int): (size: (nat, nat))
    ensures size.0 * size.1 == width * height
    ensures deg == 0 || deg == 180 ==> size == (width, height)
    ensures deg == 90 || deg == 270 ==> size == (height, width)
  {
    if deg == 90 || deg == 270 then (height, width) else (width, height)
  }

  /** Rotating the rotated size by the same angle gives back the original. */
  lemma RotatedSizeTwice(width: nat, height: nat, deg: int)
    ensures RotatedSize(RotatedSize(width, height, deg).0, RotatedSize(width, height, deg).1, deg) == (width, height)
  {
  }
}
