/** The per-row formulas of the point cloud's geometric edits, with exact real
    arithmetic in place of floating point, and what composing them gives. */
module Transforms {
  import opened LinAlg

  /** Component-wise sum of all rows. */
  function Sum(ps: seq<Vec3>): Vec3 {
    if ps == [] then Zero else Add(Sum(ps[..|ps| - 1]), ps[|ps| - 1])
  }

  /** `Mean({0})` over a non-empty set of rows: the vector that, taken once
      per row, adds up to the rows' sum. */
  function Centroid(ps: seq<Vec3>): (c: Vec3)
    requires |ps| > 0
    ensures Times(c, |ps| as real) == Sum(ps)
  {
    TimesReciprocal(Sum(ps), |ps| as real);
    Times(Sum(ps), 1.0 / |ps| as real)
  }

  /** Points of `Transform`: each row p becomes R·p + t. */
  function TransformPoints(ps: seq<Vec3>, R: Mat3, t: Vec3): (qs: seq<Vec3>)
    ensures |qs| == |ps|
  {
    seq(|ps|, i requires 0 <= i < |ps| => Add(Apply(R, ps[i]), t))
  }

  /** Normals of `Transform` and `Rotate`: each row n becomes R·n. */
  function RotateVectors(ns: seq<Vec3>, R: Mat3): (ms: seq<Vec3>)
    ensures |ms| == |ns|
  {
    seq(|ns|, i requires 0 <= i < |ns| => Apply(R, ns[i]))
  }

  /** Points of `Translate`: each row p becomes p + d. */
  function TranslatePoints(ps: seq<Vec3>, d: Vec3): (qs: seq<Vec3>)
    ensures |qs| == |ps|
  {
    seq(|ps|, i requires 0 <= i < |ps| => Add(ps[i], d))
  }

  /** The offset `Translate(v, relative)` adds: v itself, or v minus the
      current centroid. Over zero rows the offset touches nothing, so the
      mean (NaN in floating point) is not needed. */
  function TranslationOffset(ps: seq<Vec3>, v: Vec3, relative: bool): (d: Vec3)
    ensures relative || |ps| == 0 ==> d == v
    ensures !relative && |ps| > 0 ==> Add(Centroid(ps), d) == v
  {
    if relative || |ps| == 0 then v
    else
      var c := Centroid(ps);
      SameCoordinates(Add(c, Sub(v, c)), v);
      Sub(v, c)
  }

  /** Points of `Scale`: each row p becomes (p − c)·s + c. */
  function ScalePoints(ps: seq<Vec3>, s: real, c: Vec3): (qs: seq<Vec3>)
    ensures |qs| == |ps|
  {
    seq(|ps|, i requires 0 <= i < |ps| => Add(Times(Sub(ps[i], c), s), c))
  }

  /** Points of `Rotate`: each row p becomes R·(p − c) + c. */
  function RotatePoints(ps: seq<Vec3>, R: Mat3, c: Vec3): (qs: seq<Vec3>)
    ensures |qs| == |ps|
  {
    seq(|ps|, i requires 0 <= i < |ps| => Add(Apply(R, Sub(ps[i], c)), c))
  }

  /** Translating every row by d moves the sum by |ps|·d. */
  lemma {:induction false} SumTranslated(ps: seq<Vec3>, d: Vec3)
    ensures Sum(TranslatePoints(ps, d)) == Add(Sum(ps), Times(d, |ps| as real))
  {
    var n := |ps|;
    if n == 0 {
      assert TranslatePoints(ps, d) == [];
      AddTimesZero(d);
    } else {
      var init := ps[..n - 1];
      var qs := TranslatePoints(ps, d);
      assert qs[..n - 1] == TranslatePoints(init, d);
      assert Sum(qs) == Add(Sum(TranslatePoints(init, d)), Add(ps[n - 1], d));
      SumTranslated(init, d);
      assert ps[..n - 1] == init;
      assert Sum(ps) == Add(Sum(init), ps[n - 1]);
      assert (n - 1) as real == n as real - 1.0;
      AddShuffle(Sum(init), Times(d, n as real - 1.0), ps[n - 1], d);
      TimesSucc(d, n as real);
    }
  }

  /** With `relative` false the translation places the centroid exactly at v. */
  lemma TranslateToCentroid(ps: seq<Vec3>, v: Vec3)
    requires |ps| > 0
    ensures Centroid(TranslatePoints(ps, TranslationOffset(ps, v, false))) == v
  {
    var n := |ps| as real;
    var c := Centroid(ps);
    var d := Sub(v, c);
    SumTranslated(ps, d);
    var s := Sum(ps);
    assert Centroid(TranslatePoints(ps, d)) == Times(Add(s, Times(d, n)), 1.0 / n);
    TimesAdd(s, Times(d, n), 1.0 / n);
    TimesInverse(d, n);
  }

  /** Transforming by (R, t) and then by (Ri, ti) with Ri·R = I and
      ti = −Ri·t restores every point. */
  lemma TransformRoundTrip(ps: seq<Vec3>, R: Mat3, t: Vec3, Ri: Mat3, ti: Vec3)
    requires Compose(Ri, R) == Identity && ti == Neg(Apply(Ri, t))
    ensures TransformPoints(TransformPoints(ps, R, t), Ri, ti) == ps
  {
    var qs := TransformPoints(TransformPoints(ps, R, t), Ri, ti);
    forall i | 0 <= i < |ps|
      ensures qs[i] == ps[i]
    {
      var p := ps[i];
      ApplyCompose(Ri, R, p);
      ApplyIdentity(p);
      assert Apply(Ri, Add(Apply(R, p), t)) == Add(Apply(Ri, Apply(R, p)), Apply(Ri, t)) by {
        ApplySub(Ri, Apply(R, p), Neg(t));
        assert Sub(Apply(R, p), Neg(t)) == Add(Apply(R, p), t);
        ApplySub(Ri, Zero, t);
        assert Apply(Ri, Zero) == Zero;
        assert Sub(Zero, t) == Neg(t);
      }
    }
  }

  /** Rotating normals by R and then by Ri with Ri·R = I restores every normal. */
  lemma RotateVectorsRoundTrip(ns: seq<Vec3>, R: Mat3, Ri: Mat3)
    requires Compose(Ri, R) == Identity
    ensures RotateVectors(RotateVectors(ns, R), Ri) == ns
  {
    var ms := RotateVectors(RotateVectors(ns, R), Ri);
    forall i | 0 <= i < |ns|
      ensures ms[i] == ns[i]
    {
      ApplyCompose(Ri, R, ns[i]);
      ApplyIdentity(ns[i]);
    }
  }

  /** Scaling by s about c and then by 1/s about c restores every point. */
  lemma ScaleRoundTrip(ps: seq<Vec3>, s: real, c: Vec3)
    requires s != 0.0
    ensures ScalePoints(ScalePoints(ps, s, c), 1.0 / s, c) == ps
  {
    var qs := ScalePoints(ScalePoints(ps, s, c), 1.0 / s, c);
    forall i | 0 <= i < |ps|
      ensures qs[i] == ps[i]
    {
      var u := Sub(ps[i], c);
      assert Sub(Add(Times(u, s), c), c) == Times(u, s);
      TimesInverse(u, s);
    }
  }

  /** `Rotate(R, c)` moves points as `Transform` does with the block R and
      the translation c − R·c. */
  lemma RotateIsTransform(ps: seq<Vec3>, R: Mat3, c: Vec3)
    ensures RotatePoints(ps, R, c) == TransformPoints(ps, R, Sub(c, Apply(R, c)))
  {
    forall i | 0 <= i < |ps|
      ensures RotatePoints(ps, R, c)[i] == TransformPoints(ps, R, Sub(c, Apply(R, c)))[i]
    {
      ApplySub(R, ps[i], c);
    }
  }

  /** `Scale(s, c)` moves points as `Transform` does with the block s·I and
      the translation (1 − s)·c. */
  lemma ScaleIsTransform(ps: seq<Vec3>, s: real, c: Vec3)
    ensures ScalePoints(ps, s, c) == TransformPoints(ps, Diagonal(s), Times(c, 1.0 - s))
  {
    forall i | 0 <= i < |ps|
      ensures ScalePoints(ps, s, c)[i] == TransformPoints(ps, Diagonal(s), Times(c, 1.0 - s))[i]
    {
      ApplyDiagonal(s, ps[i]);
      var p := ps[i];
      ScaleAbout(p, c, s);
    }
  }

  /** `Translate` moves points as `Transform` does with the block I. */
  lemma TranslateIsTransform(ps: seq<Vec3>, d: Vec3)
    ensures TranslatePoints(ps, d) == TransformPoints(ps, Identity, d)
  {
    forall i | 0 <= i < |ps|
      ensures TranslatePoints(ps, d)[i] == TransformPoints(ps, Identity, d)[i]
    {
      ApplyIdentity(ps[i]);
    }
  }

  /** Rotating by R about c and then by Ri about c, Ri·R = I, restores every point. */
  lemma RotateRoundTrip(ps: seq<Vec3>, R: Mat3, Ri: Mat3, c: Vec3)
    requires Compose(Ri, R) == Identity
    ensures RotatePoints(RotatePoints(ps, R, c), Ri, c) == ps
  {
    var t := Sub(c, Apply(R, c));
    var ti := Sub(c, Apply(Ri, c));
    RotateIsTransform(ps, R, c);
    RotateIsTransform(RotatePoints(ps, R, c), Ri, c);
    assert ti == Neg(Apply(Ri, t)) by {
      ApplySub(Ri, c, Apply(R, c));
      ApplyCompose(Ri, R, c);
      ApplyIdentity(c);
    }
    TransformRoundTrip(ps, R, t, Ri, ti);
  }
}
