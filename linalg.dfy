/** Three-dimensional vectors and 3x3 matrices over exact reals: the
    arithmetic the tensor engine performs on one row of a point attribute. */
module LinAlg {

  type Vec3 = s: seq<real> | |s| == 3 witness [0.0, 0.0, 0.0]
  type Mat3 = m: seq<Vec3> | |m| == 3 witness [Zero, Zero, Zero]

  const Zero: Vec3 := [0.0, 0.0, 0.0]
  const Identity: Mat3 := [[1.0, 0.0, 0.0], [0.0, 1.0, 0.0], [0.0, 0.0, 1.0]]

  function Add(a: Vec3, b: Vec3): Vec3 { [a[0] + b[0], a[1] + b[1], a[2] + b[2]] }

  function Sub(a: Vec3, b: Vec3): Vec3 { [a[0] - b[0], a[1] - b[1], a[2] - b[2]] }

  function Neg(a: Vec3): Vec3 { [-a[0], -a[1], -a[2]] }

  /** Every coordinate multiplied by the scalar s. */
  function Times(a: Vec3, s: real): Vec3 { [a[0] * s, a[1] * s, a[2] * s] }

  function Dot(a: Vec3, b: Vec3): real { a[0] * b[0] + a[1] * b[1] + a[2] * b[2] }

  /** The matrix-vector product R·p. */
  function Apply(R: Mat3, p: Vec3): Vec3 { [Dot(R[0], p), Dot(R[1], p), Dot(R[2], p)] }

  /** The row vector a times the matrix B. */
  function RowTimes(a: Vec3, B: Mat3): Vec3 {
    [a[0] * B[0][0] + a[1] * B[1][0] + a[2] * B[2][0],
     a[0] * B[0][1] + a[1] * B[1][1] + a[2] * B[2][1],
     a[0] * B[0][2] + a[1] * B[1][2] + a[2] * B[2][2]]
  }

  /** The matrix product A·B. */
  function Compose(A: Mat3, B: Mat3): Mat3 { [RowTimes(A[0], B), RowTimes(A[1], B), RowTimes(A[2], B)] }

  /** s times the identity matrix. */
  function Diagonal(s: real): Mat3 { [[s, 0.0, 0.0], [0.0, s, 0.0], [0.0, 0.0, s]] }

  lemma DotApply(a: Vec3, B: Mat3, p: Vec3)
    ensures Dot(a, Apply(B, p)) == Dot(RowTimes(a, B), p)
  {
    calc {
      Dot(a, Apply(B, p));
      a[0] * (B[0][0] * p[0] + B[0][1] * p[1] + B[0][2] * p[2])
        + a[1] * (B[1][0] * p[0] + B[1][1] * p[1] + B[1][2] * p[2])
        + a[2] * (B[2][0] * p[0] + B[2][1] * p[1] + B[2][2] * p[2]);
      (a[0] * B[0][0] + a[1] * B[1][0] + a[2] * B[2][0]) * p[0]
        + (a[0] * B[0][1] + a[1] * B[1][1] + a[2] * B[2][1]) * p[1]
        + (a[0] * B[0][2] + a[1] * B[1][2] + a[2] * B[2][2]) * p[2];
      Dot(RowTimes(a, B), p);
    }
  }

  /** Applying B and then A is applying their product. */
  lemma ApplyCompose(A: Mat3, B: Mat3, p: Vec3)
    ensures Apply(A, Apply(B, p)) == Apply(Compose(A, B), p)
  {
    DotApply(A[0], B, p);
    DotApply(A[1], B, p);
    DotApply(A[2], B, p);
  }

  /** R·(p − q) = R·p − R·q. */
  lemma ApplySub(R: Mat3, p: Vec3, q: Vec3)
    ensures Apply(R, Sub(p, q)) == Sub(Apply(R, p), Apply(R, q))
  {
    assert Dot(R[0], Sub(p, q)) == Dot(R[0], p) - Dot(R[0], q);
    assert Dot(R[1], Sub(p, q)) == Dot(R[1], p) - Dot(R[1], q);
    assert Dot(R[2], Sub(p, q)) == Dot(R[2], p) - Dot(R[2], q);
  }

  lemma ApplyIdentity(p: Vec3)
    ensures Apply(Identity, p) == p
  {
  }

  lemma ApplyDiagonal(s: real, p: Vec3)
    ensures Apply(Diagonal(s), p) == Times(p, s)
  {
    assert Dot(Diagonal(s)[0], p) == p[0] * s;
    assert Dot(Diagonal(s)[1], p) == p[1] * s;
    assert Dot(Diagonal(s)[2], p) == p[2] * s;
  }

  /** Two vectors with the same coordinates are equal. */
  lemma SameCoordinates(u: Vec3, v: Vec3)
    requires u[0] == v[0] && u[1] == v[1] && u[2] == v[2]
    ensures u == v
  {
    assert u == [u[0], u[1], u[2]];
    assert v == [v[0], v[1], v[2]];
  }

  lemma TimesTimes(u: Vec3, a: real, b: real)
    ensures Times(Times(u, a), b) == Times(u, a * b)
  {
    assert u[0] * a * b == u[0] * (a * b);
    assert u[1] * a * b == u[1] * (a * b);
    assert u[2] * a * b == u[2] * (a * b);
    SameCoordinates(Times(Times(u, a), b), Times(u, a * b));
  }

  lemma TimesAdd(u: Vec3, v: Vec3, a: real)
    ensures Times(Add(u, v), a) == Add(Times(u, a), Times(v, a))
  {
    assert (u[0] + v[0]) * a == u[0] * a + v[0] * a;
    assert (u[1] + v[1]) * a == u[1] * a + v[1] * a;
    assert (u[2] + v[2]) * a == u[2] * a + v[2] * a;
    SameCoordinates(Times(Add(u, v), a), Add(Times(u, a), Times(v, a)));
  }

  /** Multiplying by s and then by 1/s is the identity, s ≠ 0. */
  lemma TimesInverse(u: Vec3, s: real)
    requires s != 0.0
    ensures Times(Times(u, s), 1.0 / s) == u
  {
    var v := Times(Times(u, s), 1.0 / s);
    forall k | 0 <= k < 3
      ensures v[k] == u[k]
    {
      assert v[k] == (u[k] * s) * (1.0 / s);
      assert (u[k] * s) * (1.0 / s) == u[k] * (s / s);
    }
    SameCoordinates(v, u);
  }

  /** Dividing by n and multiplying by n again is the identity, n ≠ 0. */
  lemma TimesReciprocal(u: Vec3, n: real)
    requires n != 0.0
    ensures Times(Times(u, 1.0 / n), n) == u
  {
    var v := Times(Times(u, 1.0 / n), n);
    forall k | 0 <= k < 3
      ensures v[k] == u[k]
    {
      assert v[k] == (u[k] * (1.0 / n)) * n;
      assert (u[k] * (1.0 / n)) * n == u[k] * (n / n);
    }
    SameCoordinates(v, u);
  }

  /** d·(n − 1) + d = d·n, coordinate by coordinate. */
  lemma TimesSucc(d: Vec3, n: real)
    ensures Add(Times(d, n - 1.0), d) == Times(d, n)
  {
    assert d[0] * (n - 1.0) + d[0] == d[0] * n;
    assert d[1] * (n - 1.0) + d[1] == d[1] * n;
    assert d[2] * (n - 1.0) + d[2] == d[2] * n;
    SameCoordinates(Add(Times(d, n - 1.0), d), Times(d, n));
  }

  /** (s + t) + (p + d) = (s + p) + (t + d). */
  lemma AddShuffle(s: Vec3, t: Vec3, p: Vec3, d: Vec3)
    ensures Add(Add(s, t), Add(p, d)) == Add(Add(s, p), Add(t, d))
  {
    SameCoordinates(Add(Add(s, t), Add(p, d)), Add(Add(s, p), Add(t, d)));
  }

  /** Zero + d·0 = Zero. */
  lemma AddTimesZero(d: Vec3)
    ensures Add(Zero, Times(d, 0.0)) == Zero
  {
    SameCoordinates(Add(Zero, Times(d, 0.0)), Zero);
  }

  /** (p − c)·s + c = p·s + c·(1 − s). */
  lemma ScaleAbout(p: Vec3, c: Vec3, s: real)
    ensures Add(Times(Sub(p, c), s), c) == Add(Times(p, s), Times(c, 1.0 - s))
  {
    var lhs, rhs := Add(Times(Sub(p, c), s), c), Add(Times(p, s), Times(c, 1.0 - s));
    assert lhs[0] == (p[0] - c[0]) * s + c[0] == p[0] * s + c[0] * (1.0 - s) == rhs[0];
    assert lhs[1] == (p[1] - c[1]) * s + c[1] == p[1] * s + c[1] * (1.0 - s) == rhs[1];
    assert lhs[2] == (p[2] - c[2]) * s + c[2] == p[2] * s + c[2] * (1.0 - s) == rhs[2];
    SameCoordinates(lhs, rhs);
  }
}
