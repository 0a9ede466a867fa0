/** The activity's five colour-matrix factories. Each turns one slider
    position (an `Int`, 0 to 100 on the activity's sliders) or the negative
    switch into a colour matrix. Kotlin's `progress / 100f` is modelled as
    exact real division. */
module Filters {
  import opened ColorMatrices

  /** A snapshot of the activity's slider and switch state
      (`graySeekBarProgress`, `brightnessSeekBarProgress`,
      `contrastSeekBarProgress`, `sepiaSeekBarProgress`,
      `isNegativeColorFilter`). */
  datatype Adjustments = Adjustments(gray: int, brightness: int, contrast: int, sepia: int, negative: bool)

  /** A slider position as a fraction of its full travel. */
  function Fraction(p: int): real
  {
    p as real / 100.0
  }

  /** The saturation handed to the platform's `setSaturation` for a gray
      slider position: full colour at 0, none at 100, decreasing in between. */
  function GraySaturation(p: int): (s: real)
    ensures 0 <= p <= 100 ==> 0.0 <= s <= 1.0
    ensures p == 0 ==> s == 1.0
    ensures p == 100 ==> s == 0.0
  {
    1.0 - Fraction(p)
  }

  /** More gray means less saturation. */
  lemma GraySaturationDecreasing(p: int, q: int)
    requires p <= q
    ensures GraySaturation(q) <= GraySaturation(p)
  {
  }

  /** `getGrayScaleColorMatrix`: the platform's saturation matrix at
      `GraySaturation(p)`. The platform computes that matrix itself, so it
      is a parameter here. At gray 0 it is the saturation matrix of a
      fully saturated image, at gray 100 that of a fully grey one. */
  function GrayScale(p: int, saturation: real -> Matrix): (m: Matrix)
    ensures p == 0 ==> m == saturation(1.0)
    ensures p == 100 ==> m == saturation(0.0)
  {
    saturation(GraySaturation(p))
  }

  /** The brightness factor: 0 at position 0, 1 (no change) at 50, 2 at 100. */
  function BrightnessScale(p: int): (k: real)
    ensures 0 <= p <= 100 ==> 0.0 <= k <= 2.0
    ensures p == 0 ==> k == 0.0
    ensures p == 50 ==> k == 1.0
    ensures p == 100 ==> k == 2.0
  {
    Fraction(p) * 2.0
  }

  /** `getBrightnessColorMatrix`: scales red, green and blue by the brightness
      factor, with no translation, and keeps alpha. */
  function Brightness(p: int): (m: Matrix)
    ensures AlphaPreserving(m)
    ensures forall v :: Apply(m, v)
                     == Rgba(BrightnessScale(p) * v.r, BrightnessScale(p) * v.g, BrightnessScale(p) * v.b, v.a)
  {
    var k := BrightnessScale(p);
    Matrix(Row(k, 0.0, 0.0, 0.0, 0.0),
           Row(0.0, k, 0.0, 0.0, 0.0),
           Row(0.0, 0.0, k, 0.0, 0.0),
           AlphaIdentityRow)
  }

  /** The contrast factor, from 0.1 at position 0 up to 2.0 at 100. No
      integer position gives exactly 1, so contrast is never neutral. */
  function ContrastScale(p: int): (c: real)
    ensures 0 <= p <= 100 ==> 0.1 <= c <= 2.0
    ensures p == 0 ==> c == 0.1
    ensures p == 100 ==> c == 2.0
    ensures c != 1.0
  {
    Fraction(p) * 1.9 + 0.1
  }

  /** The mid-grey level that contrast pivots on. */
  const MidGrey: real := 128.0

  /** `getContrastColorMatrix`: stretches each of red, green and blue away
      from mid-grey by the contrast factor (so mid-grey itself is fixed) and
      keeps alpha. */
  function Contrast(p: int): (m: Matrix)
    ensures AlphaPreserving(m)
    ensures forall v :: Apply(m, v)
                     == Rgba(MidGrey + ContrastScale(p) * (v.r - MidGrey),
                             MidGrey + ContrastScale(p) * (v.g - MidGrey),
                             MidGrey + ContrastScale(p) * (v.b - MidGrey),
                             v.a)
    ensures forall a :: Apply(m, Rgba(MidGrey, MidGrey, MidGrey, a)) == Rgba(MidGrey, MidGrey, MidGrey, a)
  {
    var c := ContrastScale(p);
    var t := 128.0 * (1.0 - c);
    Matrix(Row(c, 0.0, 0.0, 0.0, t),
           Row(0.0, c, 0.0, 0.0, t),
           Row(0.0, 0.0, c, 0.0, t),
           AlphaIdentityRow)
  }

  /** The fixed sepia-tone coefficients, reached at full sepia. */
  const SepiaTone: Matrix :=
    Matrix(Row(0.393, 0.769, 0.189, 0.0, 0.0),
           Row(0.349, 0.686, 0.168, 0.0, 0.0),
           Row(0.272, 0.534, 0.131, 0.0, 0.0),
           AlphaIdentityRow)

  function Lerp(x: real, y: real, s: real): real
  {
    (1.0 - s) * x + s * y
  }

  function LerpRow(x: Row, y: Row, s: real): Row
  {
    Row(Lerp(x.r, y.r, s), Lerp(x.g, y.g, s), Lerp(x.b, y.b, s), Lerp(x.a, y.a, s), Lerp(x.t, y.t, s))
  }

  /** Entry-wise linear interpolation from `x` (at s = 0) to `y` (at s = 1). */
  function LerpMatrix(x: Matrix, y: Matrix, s: real): Matrix
  {
    Matrix(LerpRow(x.red, y.red, s), LerpRow(x.green, y.green, s),
           LerpRow(x.blue, y.blue, s), LerpRow(x.alpha, y.alpha, s))
  }

  /** `getSepiaColorMatrix`: the identity blended linearly towards the sepia
      tone by the slider's fraction, alpha untouched. */
  function Sepia(p: int): (m: Matrix)
    ensures m == LerpMatrix(Identity, SepiaTone, Fraction(p))
    ensures AlphaPreserving(m)
    ensures p == 0 ==> m == Identity
    ensures p == 100 ==> m == SepiaTone
  {
    var s := Fraction(p);
    Matrix(Row(0.393 + 0.607 * (1.0 - s), 0.769 - 0.769 * (1.0 - s), 0.189 - 0.189 * (1.0 - s), 0.0, 0.0),
           Row(0.349 - 0.349 * (1.0 - s), 0.686 + 0.314 * (1.0 - s), 0.168 - 0.168 * (1.0 - s), 0.0, 0.0),
           Row(0.272 - 0.272 * (1.0 - s), 0.534 - 0.534 * (1.0 - s), 0.131 + 0.869 * (1.0 - s), 0.0, 0.0),
           Row(0.0, 0.0, 0.0, 1.0, 0.0))
  }

  /** `getNegativeColorMatrix`: each of red, green and blue becomes 255 minus
      itself; alpha is kept. */
  function Negative(): (m: Matrix)
    ensures AlphaPreserving(m)
    ensures forall v :: Apply(m, v) == Rgba(255.0 - v.r, 255.0 - v.g, 255.0 - v.b, v.a)
  {
    Matrix(Row(-1.0, 0.0, 0.0, 0.0, 255.0),
           Row(0.0, -1.0, 0.0, 0.0, 255.0),
           Row(0.0, 0.0, -1.0, 0.0, 255.0),
           Row(0.0, 0.0, 0.0, 1.0, 0.0))
  }

  /** Red, green and blue all lie in the 8-bit range [0, 255]. */
  predicate InColorRange(v: Rgba)
  {
    0.0 <= v.r <= 255.0 && 0.0 <= v.g <= 255.0 && 0.0 <= v.b <= 255.0
  }

  /** Any matrix whose map is the complement x -> 255 - x on red, green and
      blue (alpha kept) is its own inverse. */
  lemma ComplementSquared(n: Matrix)
    requires forall w :: Apply(n, w) == Rgba(255.0 - w.r, 255.0 - w.g, 255.0 - w.b, w.a)
    ensures Concat(n, n) == Identity
  {
    forall v ensures Apply(Concat(n, n), v) == Apply(Identity, v) {
      ConcatApply(n, n, v);
      IdentityNeutral(Identity, v);
    }
    ApplyDetermines(Concat(n, n), Identity);
  }

  /** The negative is an involution as a map: applied twice, it restores
      every colour. */
  lemma NegativeInvolution(v: Rgba)
    ensures Apply(Negative(), Apply(Negative(), v)) == v
  {
  }

  /** The negative is an involution as a matrix: concatenated with itself,
      it is the identity. */
  lemma NegativeSquared()
    ensures Concat(Negative(), Negative()) == Identity
  {
    ComplementSquared(Negative());
  }

  /** The negative maps the 8-bit colour cube onto itself: a colour is in
      range exactly when its negative is. */
  lemma NegativeKeepsRange(v: Rgba)
    ensures InColorRange(v) <==> InColorRange(Apply(Negative(), v))
  {
  }

  /** At brightness 50 the brightness matrix is the identity. */
  lemma BrightnessHalfIsIdentity()
    ensures Brightness(50) == Identity
  {
  }
}
