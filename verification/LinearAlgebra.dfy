/** Vectors and matrices of size three, for the regression of infer/adaptive.cpp. */
module LinearAlgebra {

  datatype Vec3 = Vec3(a: real, b: real, c: real)

  /** A matrix, by its rows. */
  datatype Mat3 = Mat3(p: Vec3, q: Vec3, r: Vec3)

  const ZERO := Vec3(0.0, 0.0, 0.0)

  function Inner(u: Vec3, v: Vec3): real { u.a * v.a + u.b * v.b + u.c * v.c }

  function Plus(u: Vec3, v: Vec3): Vec3 { Vec3(u.a + v.a, u.b + v.b, u.c + v.c) }

  function Minus(u: Vec3, v: Vec3): Vec3 { Vec3(u.a - v.a, u.b - v.b, u.c - v.c) }

  function Times(u: Vec3, k: real): Vec3 { Vec3(u.a * k, u.b * k, u.c * k) }

  function Sum(M: Mat3, N: Mat3): Mat3 { Mat3(Plus(M.p, N.p), Plus(M.q, N.q), Plus(M.r, N.r)) }

  function Scale(M: Mat3, k: real): Mat3 { Mat3(Times(M.p, k), Times(M.q, k), Times(M.r, k)) }

  function Apply(M: Mat3, v: Vec3): Vec3 { Vec3(Inner(M.p, v), Inner(M.q, v), Inner(M.r, v)) }

  /** The outer product of x with itself. */
  function Outer(x: Vec3): Mat3 { Mat3(Times(x, x.a), Times(x, x.b), Times(x, x.c)) }

  function Form(M: Mat3, u: Vec3, v: Vec3): real { Inner(u, Apply(M, v)) }

  predicate Symmetric(M: Mat3) { M.p.b == M.q.a && M.p.c == M.r.a && M.q.c == M.r.b }

  ghost predicate PositiveDefinite(M: Mat3) { forall v: Vec3 | v != ZERO :: Form(M, v, v) > 0.0 }

  ghost predicate Solves(M: Mat3, v: Vec3, w: Vec3) { Apply(M, w) == v }

  ghost predicate ExactlyOneSolution(M: Mat3, v: Vec3) {
    exists w: Vec3 :: Solves(M, v, w) && forall w': Vec3 | Solves(M, v, w') :: w' == w
  }

  // ------------------------------------------------------------- linearity

  lemma InnerPlus(x: Vec3, u: Vec3, v: Vec3)
    ensures Inner(x, Plus(u, v)) == Inner(x, u) + Inner(x, v)
    ensures Inner(Plus(u, v), x) == Inner(u, x) + Inner(v, x)
  {
  }

  lemma InnerTimes(x: Vec3, u: Vec3, k: real)
    ensures Inner(x, Times(u, k)) == k * Inner(x, u)
    ensures Inner(Times(u, k), x) == k * Inner(u, x)
    ensures Inner(x, Times(u, k)) == Inner(x, u) * k && Inner(Times(u, k), x) == Inner(u, x) * k
  {
  }

  lemma InnerMinus(x: Vec3, u: Vec3, v: Vec3)
    ensures Inner(x, Minus(u, v)) == Inner(x, u) - Inner(x, v)
  {
  }

  lemma ApplyPlus(M: Mat3, u: Vec3, v: Vec3)
    ensures Apply(M, Plus(u, v)) == Plus(Apply(M, u), Apply(M, v))
  {
    hide Inner;
    InnerPlus(M.p, u, v);
    InnerPlus(M.q, u, v);
    InnerPlus(M.r, u, v);
  }

  lemma ApplyMinus(M: Mat3, u: Vec3, v: Vec3)
    ensures Apply(M, Minus(u, v)) == Minus(Apply(M, u), Apply(M, v))
  {
    hide Inner;
    InnerMinus(M.p, u, v);
    InnerMinus(M.q, u, v);
    InnerMinus(M.r, u, v);
  }

  lemma ApplyTimes(M: Mat3, u: Vec3, k: real)
    ensures Apply(M, Times(u, k)) == Times(Apply(M, u), k)
  {
    hide Inner;
    InnerTimes(M.p, u, k);
    InnerTimes(M.q, u, k);
    InnerTimes(M.r, u, k);
  }

  lemma ApplySum(M: Mat3, N: Mat3, v: Vec3)
    ensures Apply(Sum(M, N), v) == Plus(Apply(M, v), Apply(N, v))
  {
    hide Inner;
    InnerPlus(v, M.p, N.p);
    InnerPlus(v, M.q, N.q);
    InnerPlus(v, M.r, N.r);
  }

  lemma ApplyScale(M: Mat3, k: real, v: Vec3)
    ensures Apply(Scale(M, k), v) == Times(Apply(M, v), k)
  {
    hide Inner;
    InnerTimes(v, M.p, k);
    InnerTimes(v, M.q, k);
    InnerTimes(v, M.r, k);
  }

  lemma ApplyOuter(x: Vec3, v: Vec3)
    ensures Apply(Outer(x), v) == Times(x, Inner(x, v))
  {
    InnerTimes(v, x, x.a);
    InnerTimes(v, x, x.b);
    InnerTimes(v, x, x.c);
  }

  lemma FormOuter(x: Vec3, u: Vec3, v: Vec3)
    ensures Form(Outer(x), u, v) == Inner(x, u) * Inner(x, v)
  {
    ApplyOuter(x, v);
    InnerTimes(u, x, Inner(x, v));
  }

  lemma FormSum(M: Mat3, N: Mat3, u: Vec3, v: Vec3)
    ensures Form(Sum(M, N), u, v) == Form(M, u, v) + Form(N, u, v)
  {
    ApplySum(M, N, v);
    InnerPlus(u, Apply(M, v), Apply(N, v));
  }

  lemma FormScale(M: Mat3, k: real, u: Vec3, v: Vec3)
    ensures Form(Scale(M, k), u, v) == k * Form(M, u, v)
  {
    ApplyScale(M, k, v);
    InnerTimes(u, Apply(M, v), k);
  }

  // ------------------------------------------- definite systems have one solution

  /** The cross product: the columns of the matrix of cofactors are these of two rows each. */
  function Cross(u: Vec3, v: Vec3): Vec3 { Vec3(u.b * v.c - u.c * v.b, u.c * v.a - u.a * v.c, u.a * v.b - u.b * v.a) }

  function Determinant(M: Mat3): real { Inner(M.p, Cross(M.q, M.r)) }

  /** Cramer's rule without the division. */
  function Cramer(M: Mat3, v: Vec3): Vec3 {
    Plus(Plus(Times(Cross(M.q, M.r), v.a), Times(Cross(M.r, M.p), v.b)), Times(Cross(M.p, M.q), v.c))
  }

  lemma CrossOrthogonal(u: Vec3, v: Vec3)
    ensures Inner(u, Cross(u, v)) == 0.0 && Inner(v, Cross(u, v)) == 0.0
  {
  }

  lemma TripleCycles(u: Vec3, v: Vec3, w: Vec3)
    ensures Inner(u, Cross(v, w)) == Inner(v, Cross(w, u))
  {
  }

  /** What a row that meets only one of the three columns makes of the combination. */
  lemma InnerCombination(u: Vec3, x: Vec3, y: Vec3, z: Vec3, i: real, j: real, k: real)
    ensures Inner(u, Plus(Plus(Times(x, i), Times(y, j)), Times(z, k))) == i * Inner(u, x) + j * Inner(u, y) + k * Inner(u, z)
  {
    InnerPlus(u, Plus(Times(x, i), Times(y, j)), Times(z, k));
    InnerPlus(u, Times(x, i), Times(y, j));
    InnerTimes(u, x, i);
    InnerTimes(u, y, j);
    InnerTimes(u, z, k);
  }

  lemma CramerSolves(M: Mat3, v: Vec3)
    ensures Apply(M, Cramer(M, v)) == Times(v, Determinant(M))
  {
    var (p, q, r) := (M.p, M.q, M.r);
    CrossOrthogonal(q, r);
    CrossOrthogonal(r, p);
    CrossOrthogonal(p, q);
    TripleCycles(p, q, r);
    TripleCycles(q, r, p);
    InnerCombination(p, Cross(q, r), Cross(r, p), Cross(p, q), v.a, v.b, v.c);
    InnerCombination(q, Cross(q, r), Cross(r, p), Cross(p, q), v.a, v.b, v.c);
    InnerCombination(r, Cross(q, r), Cross(r, p), Cross(p, q), v.a, v.b, v.c);
    hide Inner, Cross;
  }

  lemma NotDefinite(M: Mat3, v: Vec3)
    requires PositiveDefinite(M) && Form(M, v, v) == 0.0
    ensures v == ZERO
  {
  }

  lemma NullIsZero(M: Mat3, v: Vec3)
    requires PositiveDefinite(M) && Apply(M, v) == ZERO
    ensures v == ZERO
  {
    hide PositiveDefinite, Apply;
    assert Form(M, v, v) == 0.0;
    hide Form;
    NotDefinite(M, v);
  }

  lemma FlatNotDefinite(M: Mat3, v: Vec3)
    requires v != ZERO && Form(M, v, v) == 0.0
    ensures !PositiveDefinite(M)
  {
  }

  lemma SingularNotDefinite(M: Mat3)
    requires Determinant(M) == 0.0
    ensures !PositiveDefinite(M)
  {
    var e, k := Vec3(0.0, 0.0, 1.0), Cross(M.p, M.q);
    if k == ZERO {
      hide PositiveDefinite, Determinant;
      ParallelRows(M);
    } else {
      CramerSolves(M, e);
      CramerLast(M);
      hide Determinant, Cramer, Cross, Apply, PositiveDefinite;
      TimesZero(e);
      InnerZero(k);
      FlatNotDefinite(M, k);
    }
  }

  lemma TimesZero(v: Vec3)
    ensures Times(v, 0.0) == ZERO
  {
  }

  lemma InnerZero(v: Vec3)
    ensures Inner(v, ZERO) == 0.0
  {
  }

  lemma CramerLast(M: Mat3)
    ensures Cramer(M, Vec3(0.0, 0.0, 1.0)) == Cross(M.p, M.q)
  {
    hide Cross, Times;
    TimesZero(Cross(M.q, M.r));
    TimesZero(Cross(M.r, M.p));
    TimesOne(Cross(M.p, M.q));
  }

  lemma TimesOne(v: Vec3)
    ensures Times(v, 1.0) == v
  {
  }

  lemma ParallelRows(M: Mat3)
    requires Cross(M.p, M.q) == ZERO
    ensures !PositiveDefinite(M)
  {
    var u, e := Vec3(-M.p.b, M.p.a, 0.0), Vec3(1.0, 0.0, 0.0);
    hide PositiveDefinite, Form, Cross;
    if u == ZERO {
      FirstEntry(M, e);
      assert M.p.a == u.b;
      FlatNotDefinite(M, e);
    } else {
      ParallelNull(M, u);
      FlatNotDefinite(M, u);
    }
  }

  lemma FirstEntry(M: Mat3, e: Vec3)
    requires e == Vec3(1.0, 0.0, 0.0)
    ensures Form(M, e, e) == M.p.a
  {
  }

  lemma ParallelNull(M: Mat3, u: Vec3)
    requires Cross(M.p, M.q) == ZERO && u == Vec3(-M.p.b, M.p.a, 0.0)
    ensures Form(M, u, u) == 0.0
  {
    assert Inner(M.p, u) == 0.0;
    assert Inner(M.q, u) == Cross(M.p, M.q).c == 0.0;
    LastDoesNotCount(u, Apply(M, u));
  }

  lemma LastDoesNotCount(u: Vec3, v: Vec3)
    requires u.c == 0.0 && v.a == 0.0 && v.b == 0.0
    ensures Inner(u, v) == 0.0
  {
  }

  lemma DefiniteUnique(M: Mat3, v: Vec3, w: Vec3, w': Vec3)
    requires PositiveDefinite(M) && Solves(M, v, w) && Solves(M, v, w')
    ensures w' == w
  {
    hide PositiveDefinite, Apply;
    ApplyMinus(M, w', w);
    assert Minus(v, v) == ZERO;
    NullIsZero(M, Minus(w', w));
  }

  lemma DefiniteHasOne(M: Mat3, v: Vec3)
    requires PositiveDefinite(M)
    ensures ExactlyOneSolution(M, v)
  {
    var det := Determinant(M);
    if det == 0.0 {
      SingularNotDefinite(M);
    }
    var w := Times(Cramer(M, v), 1.0 / det);
    CramerSolves(M, v);
    ApplyTimes(M, Cramer(M, v), 1.0 / det);
    TimesInverse(v, det);
    hide Apply, Cramer, Times, Determinant;
    assert Solves(M, v, w);
    forall w': Vec3 | Solves(M, v, w')
      ensures w' == w
    {
      DefiniteUnique(M, v, w, w');
    }
  }

  lemma TimesInverse(v: Vec3, k: real)
    requires k != 0.0
    ensures Times(Times(v, k), 1.0 / k) == v
  {
    DivideOut(v.a, k);
    DivideOut(v.b, k);
    DivideOut(v.c, k);
  }

  lemma DivideOut(x: real, k: real)
    requires k != 0.0
    ensures (x * k) * (1.0 / k) == x
  {
  }

  /** A singular system that has a solution has others. */
  lemma SingularHasMore(M: Mat3, v: Vec3, n: Vec3)
    requires n != ZERO && Apply(M, n) == ZERO
    ensures !ExactlyOneSolution(M, v)
  {
    if w: Vec3 :| Solves(M, v, w) && forall w': Vec3 | Solves(M, v, w') :: w' == w {
      var w' := Plus(w, n);
      ApplyPlus(M, w, n);
      assert Solves(M, v, w');
    }
  }
}
