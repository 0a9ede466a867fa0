# Colour filters of DisplayImageActivity, modelled in Dafny

`DisplayImageActivity` is the image-editing screen of a small Android app. It
holds four slider positions (gray, brightness, contrast, sepia; `Int`s that the
sliders move between 0 and 100) and one negative switch. It turns each of these
into a 4x5 platform colour matrix.

The matrices meet in two places:

- the live preview (`applyFiltersOnImageView`);
- the export path (`applyFiltersToBitmapFromUri`).

Both start from a fresh identity `ColorMatrix`. Each then `postConcat`s the
filters in a fixed order: gray, brightness, contrast, sepia, negative. A slider
filter is applied only when its position is above 0, and the negative only when
its switch is on. Before filtering, the export path rotates the decoded bitmap
to match its EXIF orientation. It then draws the rotated bitmap through the
combined matrix onto a fresh bitmap and recycles what it no longer needs.

The project has six modules:

- `ColorMatrices` (`color_matrix.dfy`) models the platform colour matrix:
  - a matrix is four rows of five exact reals, and stands for the affine colour
    map it applies;
  - `Concat` is the matrix product, and `ConcatApply` proves it is composition
    of maps;
  - `PostConcat` is defined by its meaning, "apply the accumulator, then
    `post`", and `PostConcatIsConcat` shows it is the product `post * acc`;
  - `ColorMatrix` is the mutable 20-float buffer that `postConcat` overwrites
    in place.
- `Filters` (`filters.dfy`) holds the five factories `get*ColorMatrix`, with the
  meaning of each stated as a map on colours.
- `Composition` (`composition.dfy`) holds the gated left fold of `postConcat`:
  - it is stated once for any five matrices (a `FilterBank`), and `Factories`
    supplies the five the activity builds;
  - `ApplyFilters` is an independent, step-by-step reference semantics;
  - it also holds the imperative composition shared by preview and export.
- `Orientation` (`orientation.dfy`) holds `getBitmapRotation` and the size of a
  rotated bitmap.
- `Export` (`export.dfy`) holds the bitmap life cycle of
  `applyFiltersToBitmapFromUri`: which bitmap is rotated, reused, drawn and
  recycled.
- `Options` (`options.dfy`) holds the `Option` datatype the last two share.

Modelling choices:

- **Saturation is a parameter.** The gray filter calls the platform's
  `ColorMatrix.setSaturation`, whose coefficients do not appear in the source.
  The model therefore takes that matrix as a parameter,
  `saturation: real -> Matrix`, and fixes only the argument the activity passes:
  1 − p/100.
- **Reals stand for floats.** Kotlin's single-precision arithmetic
  (`progress / 100f * 2`, and so on) is modelled as exact real arithmetic.
- **Mid-grey is exact.** The contrast pivot, 128, is modelled exactly.

Notes on the behaviour the model exposes:

- **The gated sliders jump at 0.** Brightness is neutral at 50
  (`BrightnessHalfIsIdentity`). At 0 its gate is closed, so the image is
  unchanged (`CombinedIdentityWhenInactive`). At 1 the factor is already 0.02,
  which is nearly black. Contrast behaves the same way: at 0 the gate is closed,
  at 1 the factor is 0.119, and no integer position gives the neutral factor 1
  (`ContrastScale`).
- **There is no clamping.** The activity does not clamp slider values, so the
  factories are modelled for every `Int`. Their range guarantees are stated for
  positions 0 to 100.
- **Order matters.** Brightness followed by contrast differs from contrast
  followed by brightness unless brightness is at 50
  (`BrightnessContrastOrder`), so the fixed order is observable.
- **Mirrored orientations are not rotated.** Only the three rotation codes of
  the EXIF Orientation tag (tag 0x0112 of the Exif 2.3 standard) are
  recognised: ROTATE_90 = 6, ROTATE_180 = 3, ROTATE_270 = 8. Every other value
  gives 0. That includes the mirrored codes 5 and 7, which also carry a quarter
  turn.

## Model

All source paths are relative to the repository root.

| member | source | states |
|---|---|---|
| ColorMatrices.PostConcat | app/src/main/java/com/example/tde_image_processing_android/DisplayImageActivity.kt:125-129 | the matrix `postConcat(post)` leaves behind maps every colour v to post(acc(v)): first what was accumulated, then `post` |
| ColorMatrices.ConcatApply | app/src/main/java/com/example/tde_image_processing_android/DisplayImageActivity.kt:125-129 | the product of two colour matrices applies the right one first, then the left one |
| ColorMatrices.PostConcatIsConcat | app/src/main/java/com/example/tde_image_processing_android/DisplayImageActivity.kt:125-129 | `postConcat(post)` on `acc` computes the product post * acc |
| ColorMatrices.ApplyDetermines | app/src/main/java/com/example/tde_image_processing_android/DisplayImageActivity.kt:125-129 | two colour matrices with the same colour map are the same matrix |
| ColorMatrices.IdentityNeutral | app/src/main/java/com/example/tde_image_processing_android/DisplayImageActivity.kt:124 | the matrix of a fresh `ColorMatrix()` leaves every colour unchanged and is neutral for the product on both sides |
| ColorMatrices.AlphaPreservingClosed | app/src/main/java/com/example/tde_image_processing_android/DisplayImageActivity.kt:125-129 | a matrix with alpha row (0,0,0,1,0) passes alpha through, and the product of two such matrices again has that alpha row |
| ColorMatrices.PostConcatKeepsAlpha | app/src/main/java/com/example/tde_image_processing_android/DisplayImageActivity.kt:125-129 | `postConcat` of two alpha-preserving matrices is alpha-preserving |
| ColorMatrices.ElementsRoundTrip | app/src/main/java/com/example/tde_image_processing_android/DisplayImageActivity.kt:271-278 | the platform's 20-float row-major layout and the row model describe the same matrices: each converts back into the other |
| ColorMatrices.ColorMatrix.constructor | app/src/main/java/com/example/tde_image_processing_android/DisplayImageActivity.kt:124 | a fresh colour matrix is a new 20-float buffer holding the identity |
| ColorMatrices.ColorMatrix.PostConcatWith | app/src/main/java/com/example/tde_image_processing_android/DisplayImageActivity.kt:125 | `postConcat` overwrites the buffer in place with the matrix "old contents, then `post`" |
| Filters.GraySaturation | app/src/main/java/com/example/tde_image_processing_android/DisplayImageActivity.kt:259-264 | the saturation handed to `setSaturation` lies in [0,1] for positions 0..100: 1 at gray 0, 0 at gray 100 |
| Filters.GrayScale | app/src/main/java/com/example/tde_image_processing_android/DisplayImageActivity.kt:259-264 | the gray matrix is the platform saturation matrix of a fully saturated image at gray 0 and of a fully grey image at gray 100 |
| Filters.GraySaturationDecreasing | app/src/main/java/com/example/tde_image_processing_android/DisplayImageActivity.kt:260-261 | more gray never means more saturation |
| Filters.BrightnessScale | app/src/main/java/com/example/tde_image_processing_android/DisplayImageActivity.kt:268-269 | the brightness factor p/100·2 lies in [0,2] for positions 0..100: 0 at 0, 1 at 50, 2 at 100 |
| Filters.Brightness | app/src/main/java/com/example/tde_image_processing_android/DisplayImageActivity.kt:267-279 | the brightness matrix keeps alpha and maps (r,g,b,a) to (k·r, k·g, k·b, a) for the brightness factor k |
| Filters.BrightnessHalfIsIdentity | app/src/main/java/com/example/tde_image_processing_android/DisplayImageActivity.kt:267-279 | at brightness 50 the brightness matrix is the identity |
| Filters.ContrastScale | app/src/main/java/com/example/tde_image_processing_android/DisplayImageActivity.kt:282 | the contrast factor p/100·1.9+0.1 lies in [0.1,2] for positions 0..100: 0.1 at 0, 2 at 100, and it is never exactly 1 |
| Filters.Contrast | app/src/main/java/com/example/tde_image_processing_android/DisplayImageActivity.kt:281-292 | the contrast matrix keeps alpha, maps each of r,g,b to 128 + c·(x − 128) (translation 128·(1 − c)) and fixes mid-grey |
| Filters.Sepia | app/src/main/java/com/example/tde_image_processing_android/DisplayImageActivity.kt:295-322 | the sepia matrix is the entry-wise linear interpolation from the identity (position 0) to the fixed sepia coefficients (position 100), with alpha row (0,0,0,1,0) |
| Filters.Negative | app/src/main/java/com/example/tde_image_processing_android/DisplayImageActivity.kt:325-349 | the negative matrix keeps alpha and maps each of r,g,b to 255 − x |
| Filters.ComplementSquared | app/src/main/java/com/example/tde_image_processing_android/DisplayImageActivity.kt:325-349 | any matrix whose map is x ↦ 255 − x on r,g,b times itself is the identity |
| Filters.NegativeInvolution | app/src/main/java/com/example/tde_image_processing_android/DisplayImageActivity.kt:325-349 | the negative applied twice restores every colour |
| Filters.NegativeSquared | app/src/main/java/com/example/tde_image_processing_android/DisplayImageActivity.kt:325-349 | the negative matrix concatenated with itself is the identity matrix |
| Filters.NegativeKeepsRange | app/src/main/java/com/example/tde_image_processing_android/DisplayImageActivity.kt:325-349 | a colour lies in [0,255]³ exactly when its negative does |
| Composition.Factories | app/src/main/java/com/example/tde_image_processing_android/DisplayImageActivity.kt:259-349 | the brightness, contrast, sepia and negative factories all build alpha-preserving matrices |
| Composition.Gated | app/src/main/java/com/example/tde_image_processing_android/DisplayImageActivity.kt:125-129 | nothing is concatenated exactly when every slider is at or below 0 and the negative switch is off; gray comes first and negative last; at most five matrices |
| Composition.ComposeFrom | app/src/main/java/com/example/tde_image_processing_android/DisplayImageActivity.kt:124-129 | the left fold of `postConcat` over the concatenated matrices, starting from a given matrix; its meaning is stated by `ComposeFromApply` and `ComposeFromSnoc` |
| Composition.Combined | app/src/main/java/com/example/tde_image_processing_android/DisplayImageActivity.kt:124-129 | the matrix both paths build: the fold of the gated list from a fresh identity; its meaning is stated by `CombinedMeaning`, `CombinedIsChain` and `CombinedIdentityWhenInactive` |
| Composition.ComposeFromApply | app/src/main/java/com/example/tde_image_processing_android/DisplayImageActivity.kt:124-129 | a chain of `postConcat`s applies the starting matrix and then each concatenated matrix in the order it was concatenated |
| Composition.ComposeFromSnoc | app/src/main/java/com/example/tde_image_processing_android/DisplayImageActivity.kt:124-129 | one more `postConcat` extends the chain by that matrix |
| Composition.ApplyInOrderAppend | app/src/main/java/com/example/tde_image_processing_android/DisplayImageActivity.kt:124-129 | running two lists of filters back to back is running their concatenation |
| Composition.GatedMeaning | app/src/main/java/com/example/tde_image_processing_android/DisplayImageActivity.kt:125-129 | running the gated list in order is the step-by-step reference `ApplyFilters`: each open gate, in the fixed order, transforms the previous result |
| Composition.CombinedMeaning | app/src/main/java/com/example/tde_image_processing_android/DisplayImageActivity.kt:124-129 | the combined matrix transforms every colour exactly as the step-by-step filter chain does |
| Composition.CombinedIsChain | app/src/main/java/com/example/tde_image_processing_android/DisplayImageActivity.kt:124-129 | for every colour at once, the combined matrix transforms it as the step-by-step filter chain does |
| Composition.CombinedIdentityWhenInactive | app/src/main/java/com/example/tde_image_processing_android/DisplayImageActivity.kt:124-129 | with every slider at or below 0 and the negative switch off, the combined matrix is the identity and changes no colour |
| Composition.CombinedSingle | app/src/main/java/com/example/tde_image_processing_android/DisplayImageActivity.kt:124-129 | with exactly one filter active, the combined matrix is that filter's matrix |
| Composition.ComposeFromAlpha | app/src/main/java/com/example/tde_image_processing_android/DisplayImageActivity.kt:124-129 | folding alpha-preserving matrices onto an alpha-preserving one keeps alpha |
| Composition.CombinedKeepsAlpha | app/src/main/java/com/example/tde_image_processing_android/DisplayImageActivity.kt:124-129 | when every active filter keeps alpha, the combined matrix does |
| Composition.ActivityKeepsAlpha | app/src/main/java/com/example/tde_image_processing_android/DisplayImageActivity.kt:124-129 | the activity's combined matrix keeps alpha whenever the platform's saturation matrix does |
| Composition.IdentityMapCommutes | app/src/main/java/com/example/tde_image_processing_android/DisplayImageActivity.kt:124-125 | `postConcat` onto the identity, or of the identity, leaves a matrix unchanged |
| Composition.ScaleStretchDisagree | app/src/main/java/com/example/tde_image_processing_android/DisplayImageActivity.kt:126-127 | a pure scaling by k ≠ 1 and a stretch translating by t ≠ 0 give red translations t and k·t in the two orders, so the orders differ |
| Composition.BrightnessContrastOrder | app/src/main/java/com/example/tde_image_processing_android/DisplayImageActivity.kt:126-127 | brightness-then-contrast equals contrast-then-brightness exactly when brightness is 50 |
| Composition.ComposeFilters | app/src/main/java/com/example/tde_image_processing_android/DisplayImageActivity.kt:124-129 | the guarded `postConcat` sequence leaves a fresh colour matrix holding the combined matrix of the state |
| Composition.ApplyFiltersOnImageView | app/src/main/java/com/example/tde_image_processing_android/DisplayImageActivity.kt:243-256 | the preview's colour filter is the combined matrix, so it transforms every colour as the filter chain does |
| Orientation.ReadOrientation | app/src/main/java/com/example/tde_image_processing_android/DisplayImageActivity.kt:151-153 | no orientation without a stream; the tag when present; ORIENTATION_NORMAL when the tag is missing |
| Orientation.BitmapRotation | app/src/main/java/com/example/tde_image_processing_android/DisplayImageActivity.kt:156-161 | the rotation is one of 0, 90, 180, 270; it is 90, 180 or 270 exactly for ROTATE_90, ROTATE_180 or ROTATE_270 |
| Orientation.NoRotationUnlessRotated | app/src/main/java/com/example/tde_image_processing_android/DisplayImageActivity.kt:149-161 | the rotation is 0 exactly when the orientation is none of the three rotation codes, in particular with no stream, no tag or a normal tag |
| Orientation.RotatedSize | app/src/main/java/com/example/tde_image_processing_android/DisplayImageActivity.kt:105-117 | rotation keeps the pixel count; 0 and 180 degrees keep width and height; 90 and 270 degrees swap them |
| Orientation.RotatedSizeTwice | app/src/main/java/com/example/tde_image_processing_android/DisplayImageActivity.kt:105-117 | rotating the rotated size by the same angle gives back the original size |
| Export.Bitmap.constructor | app/src/main/java/com/example/tde_image_processing_android/DisplayImageActivity.kt:131-135 | a new bitmap has the requested size, is live, has never been recycled and has not been drawn on |
| Export.Bitmap.Recycle | app/src/main/java/com/example/tde_image_processing_android/DisplayImageActivity.kt:141-143 | recycling marks the bitmap recycled, counts one more recycle call and keeps its drawing history |
| Export.CreateRotatedBitmap | app/src/main/java/com/example/tde_image_processing_android/DisplayImageActivity.kt:106-117 | the rotated copy is a new, live bitmap of the rotated size |
| Export.DrawFiltered | app/src/main/java/com/example/tde_image_processing_android/DisplayImageActivity.kt:136-139 | drawing through the colour filter records on the target both that filter and the bitmap drawn, and changes nothing else |
| Export.ApplyFiltersToBitmapFromUri | app/src/main/java/com/example/tde_image_processing_android/DisplayImageActivity.kt:96-146 | no result exactly when decoding failed; otherwise, with the rotation `getBitmapRotation` reads from the metadata, the result is fresh, live, of the rotated size and drawn with the preview's combined matrix from the bitmap `drawn`; the decoded bitmap is recycled exactly once; at rotation 0 the decoded bitmap itself is drawn; otherwise a fresh rotated copy is drawn and recycled exactly once |

## Left out

- User-interface wiring is not modelled: the slider and switch listeners, view
  binding and insets. The model takes the slider and switch state as an
  `Adjustments` value.
- Storage and I/O are not modelled: opening the content stream, decoding the
  bitmap, saving to the gallery and toasts. Decoding is a parameter (a
  `Bitmap?`, where absent means that decoding failed), and so is the EXIF read (`Exif`).
- `setSaturation` is not modelled: the platform computes its coefficients and
  they do not appear in the source. The saturation matrix is a parameter.
  Alpha preservation of the combined matrix is proved under the hypothesis that
  this matrix keeps alpha.
- Pixels are not modelled: rotation resampling, the `filter = true`
  interpolation flag and the per-pixel work of `drawBitmap`. A bitmap is its
  size, its recycled state, and the colour filter and source bitmap it was
  last drawn with.
- Floating point is not modelled: single-precision rounding and the platform's
  clamping of channels to [0,255] when drawing are left out. Coefficients and
  colours are exact reals.
- Export.CreateRotatedBitmap: says nothing of the returned bitmap's pixels, and
  assumes the platform returns a new bitmap for a non-identity rotation.
- Orientation.RotatedSize: follows the platform's sizing of a quarter-turn and
  of a half-turn rotation; other angles are not produced by `getBitmapRotation`.
