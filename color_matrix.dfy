/** Colour matrices as the platform lays them out: four rows (red, green,
    blue, alpha), each of five coefficients, the fifth being a constant
    translation. A matrix stands for the affine map it applies to an
    (R, G, B, A) colour. Coefficients are exact reals: none of the
    platform's single-precision rounding is modelled. */
module ColorMatrices {

  /** One colour, one real per channel (no 8-bit quantisation here). */
  datatype Rgba = Rgba(r: real, g: real, b: real, a: real)

  /** One row of a colour matrix: the weights of R, G, B and A, and the
      translation `t`. */
  datatype Row = Row(r: real, g: real, b: real, a: real, t: real)

  datatype Matrix = Matrix(red: Row, green: Row, blue: Row, alpha: Row)

  /** The matrix a freshly constructed platform colour matrix holds. */
  const Identity: Matrix :=
    Matrix(Row(1.0, 0.0, 0.0, 0.0, 0.0),
           Row(0.0, 1.0, 0.0, 0.0, 0.0),
           Row(0.0, 0.0, 1.0, 0.0, 0.0),
           Row(0.0, 0.0, 0.0, 1.0, 0.0))

  /** The alpha row every matrix built by the filters carries. */
  const AlphaIdentityRow: Row := Row(0.0, 0.0, 0.0, 1.0, 0.0)

  /** The output channel a row computes. */
  function Dot(x: Row, v: Rgba): real
  {
    x.r * v.r + x.g * v.g + x.b * v.b + x.a * v.a + x.t
  }

  /** The affine colour map a matrix stands for. */
  function Apply(m: Matrix, v: Rgba): Rgba
  {
    Rgba(Dot(m.red, v), Dot(m.green, v), Dot(m.blue, v), Dot(m.alpha, v))
  }

  function Scale(p: Row, s: real): Row
  {
    Row(s * p.r, s * p.g, s * p.b, s * p.a, s * p.t)
  }

  function Add(p: Row, q: Row): Row
  {
    Row(p.r + q.r, p.g + q.g, p.b + q.b, p.a + q.a, p.t + q.t)
  }

  /** Row `x` of a product `a * b`, each matrix read as a 5x5 matrix whose
      implicit fifth row is (0, 0, 0, 0, 1): the rows of `b` weighted by the
      first four coefficients of `x`, plus the translation of `x`. */
  function RowTimes(x: Row, b: Matrix): Row
  {
    Add(Add(Add(Add(Scale(b.red, x.r), Scale(b.green, x.g)), Scale(b.blue, x.b)), Scale(b.alpha, x.a)),
        Row(0.0, 0.0, 0.0, 0.0, x.t))
  }

  /** The platform's `setConcat(a, b)`: the matrix product `a * b`, which has
      the effect of applying `b` and then `a` (ConcatApply). */
  function Concat(a: Matrix, b: Matrix): Matrix
  {
    Matrix(RowTimes(a.red, b), RowTimes(a.green, b), RowTimes(a.blue, b), RowTimes(a.alpha, b))
  }

  /** The platform's `postConcat(post)` on an accumulator `acc`, by its
      meaning: the matrix that applies what was accumulated first and then
      `post`. There is exactly one (ApplyDetermines), and it is the product
      `post * acc` (PostConcatIsConcat). */
  ghost function PostConcat(acc: Matrix, post: Matrix): (r: Matrix)
    ensures forall v :: Apply(r, v) == Apply(post, Apply(acc, v))
  {
    ConcatMeaning(post, acc);
    var r :| forall v :: Apply(r, v) == Apply(post, Apply(acc, v));
    r
  }

  lemma DotAdd(p: Row, q: Row, v: Rgba)
    ensures Dot(Add(p, q), v) == Dot(p, v) + Dot(q, v)
  {
  }

  lemma DotScale(p: Row, s: real, v: Rgba)
    ensures Dot(Scale(p, s), v) == s * Dot(p, v)
  {
  }

  /** A product row, applied to `v`, weights the outputs of the rows of `b`. */
  lemma DotRowTimes(x: Row, b: Matrix, v: Rgba)
    ensures Dot(RowTimes(x, b), v)
         == x.r * Dot(b.red, v) + x.g * Dot(b.green, v) + x.b * Dot(b.blue, v) + x.a * Dot(b.alpha, v) + x.t
  {
    var p1, p2, p3, p4 := Scale(b.red, x.r), Scale(b.green, x.g), Scale(b.blue, x.b), Scale(b.alpha, x.a);
    DotAdd(Add(Add(Add(p1, p2), p3), p4), Row(0.0, 0.0, 0.0, 0.0, x.t), v);
    DotAdd(Add(Add(p1, p2), p3), p4, v);
    DotAdd(Add(p1, p2), p3, v);
    DotAdd(p1, p2, v);
    DotScale(b.red, x.r, v);
    DotScale(b.green, x.g, v);
    DotScale(b.blue, x.b, v);
    DotScale(b.alpha, x.a, v);
  }

  /** The output channel of a product row is the row applied to the output
      of `b`. */
  lemma RowTimesDot(x: Row, b: Matrix, v: Rgba)
    ensures Dot(RowTimes(x, b), v) == Dot(x, Apply(b, v))
  {
    DotRowTimes(x, b, v);
    assert Dot(x, Apply(b, v))
        == x.r * Dot(b.red, v) + x.g * Dot(b.green, v) + x.b * Dot(b.blue, v) + x.a * Dot(b.alpha, v) + x.t;
  }

  /** Concatenation is composition of the affine maps: `Concat(a, b)` applies
      `b` first, then `a`. */
  lemma ConcatApply(a: Matrix, b: Matrix, v: Rgba)
    ensures Apply(Concat(a, b), v) == Apply(a, Apply(b, v))
  {
    RowTimesDot(a.red, b, v);
    RowTimesDot(a.green, b, v);
    RowTimesDot(a.blue, b, v);
    RowTimesDot(a.alpha, b, v);
  }

  lemma ConcatMeaning(a: Matrix, b: Matrix)
    ensures forall v :: Apply(Concat(a, b), v) == Apply(a, Apply(b, v))
  {
    forall v ensures Apply(Concat(a, b), v) == Apply(a, Apply(b, v)) {
      ConcatApply(a, b, v);
    }
  }

  /** The translation a product row carries. */
  lemma RowTimesTranslation(x: Row, b: Matrix)
    ensures RowTimes(x, b).t == x.r * b.red.t + x.g * b.green.t + x.b * b.blue.t + x.a * b.alpha.t + x.t
  {
  }

  /** A row times the identity is that row. */
  lemma RowTimesIdentity(x: Row)
    ensures RowTimes(x, Identity) == x
  {
  }

  const ZeroRow: Row := Row(0.0, 0.0, 0.0, 0.0, 0.0)

  lemma ScaleUnit(p: Row)
    ensures Scale(p, 0.0) == ZeroRow && Scale(p, 1.0) == p
    ensures Add(p, ZeroRow) == p && Add(ZeroRow, p) == p
  {
  }

  /** Unit row `i` times `b` picks row `i` of `b`. */
  lemma UnitRowTimes(b: Matrix)
    ensures RowTimes(Identity.red, b) == b.red
    ensures RowTimes(Identity.green, b) == b.green
    ensures RowTimes(Identity.blue, b) == b.blue
    ensures RowTimes(Identity.alpha, b) == b.alpha
  {
    ScaleUnit(b.red);
    ScaleUnit(b.green);
    ScaleUnit(b.blue);
    ScaleUnit(b.alpha);
    assert Row(0.0, 0.0, 0.0, 0.0, 0.0) == ZeroRow;
  }

  /** The identity matrix is the identity map and is neutral on both sides
      of a concatenation. */
  lemma IdentityNeutral(m: Matrix, v: Rgba)
    ensures Apply(Identity, v) == v
    ensures Concat(Identity, m) == m && Concat(m, Identity) == m
  {
    UnitRowTimes(m);
    RowTimesIdentity(m.red);
    RowTimesIdentity(m.green);
    RowTimesIdentity(m.blue);
    RowTimesIdentity(m.alpha);
  }

  /** A row is determined by its outputs on the zero colour and the four
      unit colours. */
  lemma RowDetermined(x: Row, y: Row)
    requires Dot(x, Rgba(0.0, 0.0, 0.0, 0.0)) == Dot(y, Rgba(0.0, 0.0, 0.0, 0.0))
    requires Dot(x, Rgba(1.0, 0.0, 0.0, 0.0)) == Dot(y, Rgba(1.0, 0.0, 0.0, 0.0))
    requires Dot(x, Rgba(0.0, 1.0, 0.0, 0.0)) == Dot(y, Rgba(0.0, 1.0, 0.0, 0.0))
    requires Dot(x, Rgba(0.0, 0.0, 1.0, 0.0)) == Dot(y, Rgba(0.0, 0.0, 1.0, 0.0))
    requires Dot(x, Rgba(0.0, 0.0, 0.0, 1.0)) == Dot(y, Rgba(0.0, 0.0, 0.0, 1.0))
    ensures x == y
  {
  }

  /** Two matrices with the same affine map are the same matrix. */
  lemma ApplyDetermines(a: Matrix, b: Matrix)
    requires forall v :: Apply(a, v) == Apply(b, v)
    ensures a == b
  {
    var z, er, eg, eb, ea := Rgba(0.0, 0.0, 0.0, 0.0), Rgba(1.0, 0.0, 0.0, 0.0), Rgba(0.0, 1.0, 0.0, 0.0),
                            Rgba(0.0, 0.0, 1.0, 0.0), Rgba(0.0, 0.0, 0.0, 1.0);
    assert Apply(a, z) == Apply(b, z) && Apply(a, er) == Apply(b, er) && Apply(a, eg) == Apply(b, eg);
    assert Apply(a, eb) == Apply(b, eb) && Apply(a, ea) == Apply(b, ea);
    RowDetermined(a.red, b.red);
    RowDetermined(a.green, b.green);
    RowDetermined(a.blue, b.blue);
    RowDetermined(a.alpha, b.alpha);
  }

  /** `postConcat(post)` computes the product `post * acc`. */
  lemma PostConcatIsConcat(acc: Matrix, post: Matrix)
    ensures PostConcat(acc, post) == Concat(post, acc)
  {
    ConcatMeaning(post, acc);
    ApplyDetermines(PostConcat(acc, post), Concat(post, acc));
  }

  /** A matrix leaves alpha untouched when its alpha row is (0, 0, 0, 1, 0). */
  predicate AlphaPreserving(m: Matrix)
  {
    m.alpha == AlphaIdentityRow
  }

  /** An alpha-preserving matrix passes alpha through, and the product of two
      of them is again alpha-preserving. */
  lemma AlphaPreservingClosed(a: Matrix, b: Matrix, v: Rgba)
    requires AlphaPreserving(a) && AlphaPreserving(b)
    ensures Apply(a, v).a == v.a
    ensures AlphaPreserving(Concat(a, b))
  {
    UnitRowTimes(b);
  }

  /** `postConcat` of two alpha-preserving matrices is alpha-preserving. */
  lemma PostConcatKeepsAlpha(acc: Matrix, post: Matrix)
    requires AlphaPreserving(acc) && AlphaPreserving(post)
    ensures AlphaPreserving(PostConcat(acc, post))
  {
    PostConcatIsConcat(acc, post);
    AlphaPreservingClosed(post, acc, Rgba(0.0, 0.0, 0.0, 0.0));
  }

  /** The platform's 20-float layout: the rows one after another. */
  function Elements(m: Matrix): (s: seq<real>)
    ensures |s| == 20
    ensures s[0] == m.red.r && s[4] == m.red.t && s[6] == m.green.g && s[12] == m.blue.b
    ensures s[15] == m.alpha.r && s[18] == m.alpha.a && s[19] == m.alpha.t
  {
    [m.red.r, m.red.g, m.red.b, m.red.a, m.red.t,
     m.green.r, m.green.g, m.green.b, m.green.a, m.green.t,
     m.blue.r, m.blue.g, m.blue.b, m.blue.a, m.blue.t,
     m.alpha.r, m.alpha.g, m.alpha.b, m.alpha.a, m.alpha.t]
  }

  /** Reads a 20-float array back as a matrix. */
  function FromElements(s: seq<real>): Matrix
    requires |s| == 20
  {
    Matrix(Row(s[0], s[1], s[2], s[3], s[4]),
           Row(s[5], s[6], s[7], s[8], s[9]),
           Row(s[10], s[11], s[12], s[13], s[14]),
           Row(s[15], s[16], s[17], s[18], s[19]))
  }

  /** The two layouts describe the same matrices. */
  lemma ElementsRoundTrip(m: Matrix, s: seq<real>)
    requires |s| == 20
    ensures FromElements(Elements(m)) == m
    ensures Elements(FromElements(s)) == s
  {
  }

  /** The platform's mutable colour matrix: a fixed buffer of 20 floats that
      `postConcat` overwrites in place. */
  class ColorMatrix {
    const values: array<real>

    ghost predicate Valid()
      reads this
    {
      values.Length == 20
    }

    /** The matrix the buffer currently holds. */
    function Current(): Matrix
      reads this, values
      requires Valid()
    {
      FromElements(values[..])
    }

    /** `ColorMatrix()`: a new buffer holding the identity. */
    constructor ()
      ensures Valid() && fresh(values)
      ensures Current() == Identity
    {
      values := new real[20](n => if n % 6 == 0 then 1.0 else 0.0);
    }

    /** `postConcat(post)`: the buffer now holds the map "what it held, then
        `post`". */
    method PostConcatWith(post: Matrix)
      requires Valid()
      modifies values
      ensures Valid()
      ensures Current() == PostConcat(old(Current()), post)
    {
      PostConcatIsConcat(Current(), post);
      var r := Elements(Concat(post, Current()));
      forall n | 0 <= n < 20 {
        values[n] := r[n];
      }
      assert values[..] == r;
      ElementsRoundTrip(PostConcat(old(Current()), post), r);
    }
  }
}
