/** How the activity combines its filters into one colour matrix: start from
    the identity and `postConcat` each active filter in the fixed order
    gray, brightness, contrast, sepia, negative. A slider's filter is active
    when its position is above zero, the negative one when the switch is on.
    The export path and the live preview run the same steps. The chain is
    stated for any five matrices (a `FilterBank`); `Factories` supplies the
    five the activity's factories build. */
module Composition {
  import opened ColorMatrices
  import opened Filters

  /** One matrix per filter, in no particular order. */
  datatype FilterBank = FilterBank(gray: Matrix, brightness: Matrix, contrast: Matrix, sepia: Matrix, negative: Matrix)

  /** The matrices the activity's five factories build for a state. */
  function Factories(st: Adjustments, saturation: real -> Matrix): (f: FilterBank)
    ensures AlphaPreserving(f.brightness) && AlphaPreserving(f.contrast)
    ensures AlphaPreserving(f.sepia) && AlphaPreserving(f.negative)
  {
    FilterBank(GrayScale(st.gray, saturation), Brightness(st.brightness), Contrast(st.contrast),
               Sepia(st.sepia), Negative())
  }

  /** `m` when its gate is open, nothing otherwise. */
  function Optional(open: bool, m: Matrix): (ms: seq<Matrix>)
    ensures |ms| <= 1
  {
    if open then [m] else []
  }

  /** The matrices whose gates are open, in the fixed order gray,
      brightness, contrast, sepia, negative. */
  function Gated(st: Adjustments, f: FilterBank): (ms: seq<Matrix>)
    ensures ms == [] <==> st.gray <= 0 && st.brightness <= 0 && st.contrast <= 0 && st.sepia <= 0 && !st.negative
    ensures st.gray > 0 ==> ms[0] == f.gray
    ensures st.negative ==> ms[|ms| - 1] == f.negative
    ensures |ms| <= 5
  {
    Optional(st.gray > 0, f.gray) + Optional(st.brightness > 0, f.brightness) + Optional(st.contrast > 0, f.contrast)
    + Optional(st.sepia > 0, f.sepia) + Optional(st.negative, f.negative)
  }

  /** `postConcat` folded over `ms`, left to right, onto `acc`. */
  ghost function ComposeFrom(acc: Matrix, ms: seq<Matrix>): Matrix
    decreases |ms|
  {
    if ms == [] then acc else ComposeFrom(PostConcat(acc, ms[0]), ms[1..])
  }

  /** The combined matrix: the active filters folded onto the identity. */
  ghost function Combined(st: Adjustments, f: FilterBank): Matrix
  {
    ComposeFrom(Identity, Gated(st, f))
  }

  /** Applies the maps of `ms` one after another, first to last. */
  function ApplyInOrder(ms: seq<Matrix>, v: Rgba): Rgba
    decreases |ms|
  {
    if ms == [] then v else ApplyInOrder(ms[1..], Apply(ms[0], v))
  }

  /** Reference semantics of the filter chain: each active filter, in the
      fixed order, transforms the colour the previous ones produced. */
  function ApplyFilters(st: Adjustments, f: FilterBank, v: Rgba): Rgba
  {
    var v1 := if st.gray > 0 then Apply(f.gray, v) else v;
    var v2 := if st.brightness > 0 then Apply(f.brightness, v1) else v1;
    var v3 := if st.contrast > 0 then Apply(f.contrast, v2) else v2;
    var v4 := if st.sepia > 0 then Apply(f.sepia, v3) else v3;
    if st.negative then Apply(f.negative, v4) else v4
  }

  /** Folding `postConcat` yields the matrix of "the accumulator, then each
      matrix in turn". */
  lemma {:induction false} ComposeFromApply(acc: Matrix, ms: seq<Matrix>, v: Rgba)
    ensures Apply(ComposeFrom(acc, ms), v) == ApplyInOrder(ms, Apply(acc, v))
    decreases |ms|
  {
    if ms != [] {
      ComposeFromApply(PostConcat(acc, ms[0]), ms[1..], v);
    }
  }

  /** One more `postConcat` extends the fold by one matrix. */
  lemma {:induction false} ComposeFromSnoc(acc: Matrix, ms: seq<Matrix>, m: Matrix)
    ensures ComposeFrom(acc, ms + [m]) == PostConcat(ComposeFrom(acc, ms), m)
    decreases |ms|
  {
    if ms == [] {
      assert [] + [m] == [m];
    } else {
      assert (ms + [m])[1..] == ms[1..] + [m];
      ComposeFromSnoc(PostConcat(acc, ms[0]), ms[1..], m);
    }
  }

  /** A guarded `postConcat`: the fold grows by the matrix exactly when its
      gate is open. */
  lemma ComposeFromSnocOptional(acc: Matrix, ms: seq<Matrix>, open: bool, m: Matrix)
    ensures ComposeFrom(acc, ms + Optional(open, m))
         == if open then PostConcat(ComposeFrom(acc, ms), m) else ComposeFrom(acc, ms)
  {
    if open {
      ComposeFromSnoc(acc, ms, m);
    } else {
      assert ms + [] == ms;
    }
  }

  /** Applying a concatenation of lists runs the first list, then the second. */
  lemma {:induction false} ApplyInOrderAppend(xs: seq<Matrix>, ys: seq<Matrix>, v: Rgba)
    ensures ApplyInOrder(xs + ys, v) == ApplyInOrder(ys, ApplyInOrder(xs, v))
    decreases |xs|
  {
    if xs == [] {
      assert [] + ys == ys;
    } else {
      assert (xs + ys)[1..] == xs[1..] + ys;
      ApplyInOrderAppend(xs[1..], ys, Apply(xs[0], v));
    }
  }

  /** Applying one optional matrix. */
  lemma ApplyInOrderOptional(open: bool, m: Matrix, v: Rgba)
    ensures ApplyInOrder(Optional(open, m), v) == if open then Apply(m, v) else v
  {
    if open {
      assert [m][1..] == [];
    }
  }

  /** Running the gated list in order is the step-by-step reference. */
  lemma GatedMeaning(st: Adjustments, f: FilterBank, v: Rgba)
    ensures ApplyInOrder(Gated(st, f), v) == ApplyFilters(st, f, v)
  {
    var og, ob, oc := Optional(st.gray > 0, f.gray), Optional(st.brightness > 0, f.brightness), Optional(st.contrast > 0, f.contrast);
    var os, on := Optional(st.sepia > 0, f.sepia), Optional(st.negative, f.negative);
    ApplyInOrderAppend(og + ob + oc + os, on, v);
    ApplyInOrderAppend(og + ob + oc, os, v);
    ApplyInOrderAppend(og + ob, oc, v);
    ApplyInOrderAppend(og, ob, v);
    ApplyInOrderOptional(st.gray > 0, f.gray, v);
    var v1 := ApplyInOrder(og, v);
    ApplyInOrderOptional(st.brightness > 0, f.brightness, v1);
    var v2 := ApplyInOrder(ob, v1);
    ApplyInOrderOptional(st.contrast > 0, f.contrast, v2);
    var v3 := ApplyInOrder(oc, v2);
    ApplyInOrderOptional(st.sepia > 0, f.sepia, v3);
    var v4 := ApplyInOrder(os, v3);
    ApplyInOrderOptional(st.negative, f.negative, v4);
  }

  /** The combined matrix is the filter chain: applying it to a colour gives
      what applying each active filter in the fixed order gives. */
  lemma CombinedMeaning(st: Adjustments, f: FilterBank, v: Rgba)
    ensures Apply(Combined(st, f), v) == ApplyFilters(st, f, v)
  {
    ComposeFromApply(Identity, Gated(st, f), v);
    IdentityNeutral(Identity, v);
    GatedMeaning(st, f, v);
  }

  /** `CombinedMeaning` for every colour at once. */
  lemma CombinedIsChain(st: Adjustments, f: FilterBank)
    ensures forall v :: Apply(Combined(st, f), v) == ApplyFilters(st, f, v)
  {
    forall v ensures Apply(Combined(st, f), v) == ApplyFilters(st, f, v) {
      CombinedMeaning(st, f, v);
    }
  }

  /** With every slider at (or below) zero and the negative switch off,
      nothing is concatenated and the combined matrix is the identity. */
  lemma CombinedIdentityWhenInactive(st: Adjustments, f: FilterBank)
    requires st.gray <= 0 && st.brightness <= 0 && st.contrast <= 0 && st.sepia <= 0 && !st.negative
    ensures Combined(st, f) == Identity
    ensures forall v :: Apply(Combined(st, f), v) == v
  {
    forall v ensures Apply(Identity, v) == v {
      IdentityNeutral(Identity, v);
    }
  }

  /** With exactly one filter active, the combined matrix is that filter's
      matrix: `postConcat` onto a fresh (identity) matrix adds nothing. */
  lemma CombinedSingle(st: Adjustments, f: FilterBank, m: Matrix)
    requires Gated(st, f) == [m]
    ensures Combined(st, f) == m
  {
    var ms := Gated(st, f);
    assert ms[0] == m && ms[1..] == [];
    assert ComposeFrom(Identity, ms) == ComposeFrom(PostConcat(Identity, m), []);
    IdentityMapCommutes(m);
  }

  /** If every matrix folded in keeps alpha, so does the fold. */
  lemma {:induction false} ComposeFromAlpha(acc: Matrix, ms: seq<Matrix>)
    requires AlphaPreserving(acc)
    requires forall i :: 0 <= i < |ms| ==> AlphaPreserving(ms[i])
    ensures AlphaPreserving(ComposeFrom(acc, ms))
    decreases |ms|
  {
    if ms != [] {
      var m := ms[0];
      PostConcatKeepsAlpha(acc, m);
      ComposeFromAlpha(PostConcat(acc, m), ms[1..]);
    }
  }

  /** The combined matrix never changes alpha when none of the active
      filters does. */
  lemma CombinedKeepsAlpha(st: Adjustments, f: FilterBank)
    requires st.gray > 0 ==> AlphaPreserving(f.gray)
    requires st.brightness > 0 ==> AlphaPreserving(f.brightness)
    requires st.contrast > 0 ==> AlphaPreserving(f.contrast)
    requires st.sepia > 0 ==> AlphaPreserving(f.sepia)
    requires st.negative ==> AlphaPreserving(f.negative)
    ensures AlphaPreserving(Combined(st, f))
  {
    var og, ob, oc := Optional(st.gray > 0, f.gray), Optional(st.brightness > 0, f.brightness), Optional(st.contrast > 0, f.contrast);
    var os, on := Optional(st.sepia > 0, f.sepia), Optional(st.negative, f.negative);
    var ms := og + ob + oc + os + on;
    forall i | 0 <= i < |ms| ensures AlphaPreserving(ms[i]) {
      assert ms[i] in og || ms[i] in ob || ms[i] in oc || ms[i] in os || ms[i] in on;
    }
    ComposeFromAlpha(Identity, ms);
  }

  /** The activity's combined matrix never changes alpha, provided the
      platform's saturation matrix (behind the gray filter) does not. */
  lemma ActivityKeepsAlpha(st: Adjustments, saturation: real -> Matrix)
    requires st.gray > 0 ==> AlphaPreserving(GrayScale(st.gray, saturation))
    ensures AlphaPreserving(Combined(st, Factories(st, saturation)))
  {
    CombinedKeepsAlpha(st, Factories(st, saturation));
  }

  lemma ProductNonZero(a: real, b: real)
    requires a != 0.0 && b != 0.0
    ensures a * b != 0.0
  {
  }

  /** The identity commutes with every matrix under `postConcat`. */
  lemma IdentityMapCommutes(m: Matrix)
    ensures PostConcat(Identity, m) == m && PostConcat(m, Identity) == m
  {
    PostConcatIsConcat(Identity, m);
    PostConcatIsConcat(m, Identity);
    IdentityNeutral(m, Rgba(0.0, 0.0, 0.0, 0.0));
  }

  /** A red scaling by `k` that does not translate and a red stretch by `c`
      that translates by `t` leave different red translations in the two
      orders, unless `k` is 1 or `t` is 0. */
  lemma ScaleStretchDisagree(sm: Matrix, cm: Matrix, k: real, c: real, t: real)
    requires sm.red == Row(k, 0.0, 0.0, 0.0, 0.0) && cm.red == Row(c, 0.0, 0.0, 0.0, t)
    requires k != 1.0 && t != 0.0
    ensures PostConcat(sm, cm).red.t == t
    ensures PostConcat(cm, sm).red.t == k * t
    ensures PostConcat(sm, cm) != PostConcat(cm, sm)
  {
    PostConcatIsConcat(sm, cm);
    PostConcatIsConcat(cm, sm);
    RowTimesTranslation(cm.red, sm);
    RowTimesTranslation(sm.red, cm);
    ProductNonZero(k - 1.0, t);
  }

  /** The order is part of the contract: brightness-then-contrast and
      contrast-then-brightness agree only when brightness sits at 50, where
      its matrix is the identity. */
  lemma BrightnessContrastOrder(p: int, q: int)
    ensures PostConcat(Brightness(p), Contrast(q)) == PostConcat(Contrast(q), Brightness(p)) <==> p == 50
  {
    if p == 50 {
      BrightnessHalfIsIdentity();
      IdentityMapCommutes(Contrast(q));
    } else {
      var c := ContrastScale(q);
      ScaleStretchDisagree(Brightness(p), Contrast(q), BrightnessScale(p), c, 128.0 * (1.0 - c));
    }
  }

  /** The colour-matrix steps shared by `applyFiltersOnImageView` and
      `applyFiltersToBitmapFromUri`: a fresh platform colour matrix, then one
      guarded `postConcat` per filter, in the fixed order. */
  method ComposeFilters(st: Adjustments, saturation: real -> Matrix) returns (cm: ColorMatrix)
    ensures fresh(cm) && fresh(cm.values) && cm.Valid()
    ensures cm.Current() == Combined(st, Factories(st, saturation))
  {
    ghost var f := Factories(st, saturation);
    cm := new ColorMatrix();
    if st.gray > 0 {
      cm.PostConcatWith(GrayScale(st.gray, saturation));
    }
    ComposeFromSnocOptional(Identity, [], st.gray > 0, f.gray);
    assert [] + Optional(st.gray > 0, f.gray) == Optional(st.gray > 0, f.gray);
    ghost var done := Optional(st.gray > 0, f.gray);
    if st.brightness > 0 {
      cm.PostConcatWith(Brightness(st.brightness));
    }
    ComposeFromSnocOptional(Identity, done, st.brightness > 0, f.brightness);
    done := done + Optional(st.brightness > 0, f.brightness);
    if st.contrast > 0 {
      cm.PostConcatWith(Contrast(st.contrast));
    }
    ComposeFromSnocOptional(Identity, done, st.contrast > 0, f.contrast);
    done := done + Optional(st.contrast > 0, f.contrast);
    if st.sepia > 0 {
      cm.PostConcatWith(Sepia(st.sepia));
    }
    ComposeFromSnocOptional(Identity, done, st.sepia > 0, f.sepia);
    done := done + Optional(st.sepia > 0, f.sepia);
    if st.negative {
      cm.PostConcatWith(Negative());
    }
    ComposeFromSnocOptional(Identity, done, st.negative, f.negative);
    done := done + Optional(st.negative, f.negative);
  }

  /** `applyFiltersOnImageView`: the colour filter handed to the image view
      is the combined matrix of the current state, so it transforms every
      colour as the filter chain does. */
  method ApplyFiltersOnImageView(st: Adjustments, saturation: real -> Matrix) returns (filter: Matrix)
    ensures filter == Combined(st, Factories(st, saturation))
    ensures forall v :: Apply(filter, v) == ApplyFilters(st, Factories(st, saturation), v)
  {
    var cm := ComposeFilters(st, saturation);
    filter := cm.Current();
    CombinedIsChain(st, Factories(st, saturation));
  }
}
