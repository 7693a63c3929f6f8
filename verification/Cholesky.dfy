/** The rank-one update of a Cholesky factor (infer/adaptive.cpp), on values. */
module Cholesky {
  import opened RealMath

  type Vector = seq<real>
  type Matrix = seq<seq<real>>

  const EPS: real := 0.000000000000000001

  predicate Square(R: Matrix, n: nat) { |R| == n && forall i | 0 <= i < n :: |R[i]| == n }

  ghost predicate LowerTriangular(R: Matrix) {
    Square(R, |R|) && forall i, j | 0 <= i < j < |R| :: R[i][j] == 0.0
  }

  /** The inner product of two rows over the first m columns; over all of them, an entry of R times its transpose. */
  function Dot(R: Matrix, i: nat, j: nat, m: nat): real
    requires i < |R| && j < |R| && m <= |R[i]| && m <= |R[j]|
  {
    if m == 0 then 0.0 else Dot(R, i, j, m - 1) + R[i][m - 1] * R[j][m - 1]
  }

  /** Entry (i, j) of R times its transpose. */
  function Product(R: Matrix, i: nat, j: nat): real
    requires Square(R, |R|) && i < |R| && j < |R|
  {
    Dot(R, i, j, |R|)
  }

  // --------------------------------------------------------------- one column

  /** The rotation that the column step uses, as the source names its numbers. */
  datatype Rotation = Rotation(V: real, r: real, c: real, s: real)

  function Hypotenuse(a: real, b: real, sqrt: real -> real): real { sqrt(a * a + b * b) }

  function RotationAt(diagonal: real, xk: real, sqrt: real -> real): Rotation {
    var V := Max(EPS, diagonal);
    var r := Hypotenuse(V, xk, sqrt);
    Rotation(V, r, r / V, xk / V)
  }

  /** What holds of it: r^2 = V^2 + xk^2 and c^2 = 1 + s^2, nothing vanishes. */
  ghost predicate Rotates(q: Rotation, xk: real) {
    && q.V >= EPS && q.r >= q.V && q.c >= 1.0
    && q.r == q.c * q.V && xk == q.s * q.V
    && q.r * q.r == q.V * q.V + xk * xk
    && q.c * q.c == 1.0 + q.s * q.s
  }

  lemma SquareAtLeast(r: real, v: real)
    requires r >= 0.0 && v >= 0.0 && r * r >= v * v
    ensures r >= v
  {
    if r < v {
      SquareLess(r, v);
    }
  }

  lemma SquareLess(r: real, v: real)
    requires 0.0 <= r < v
    ensures r * r < v * v
  {
    PositiveProduct(v - r, v + r);
    assert (v - r) * (v + r) == v * v - r * r;
  }

  lemma PositiveProduct(a: real, b: real)
    requires a > 0.0 && b > 0.0
    ensures a * b > 0.0
  {
  }

  lemma RotationRotates(diagonal: real, xk: real, sqrt: real -> real)
    requires IsSqrt(sqrt)
    ensures Rotates(RotationAt(diagonal, xk, sqrt), xk)
  {
    var q := RotationAt(diagonal, xk, sqrt);
    var V := q.V;
    assert V * V + xk * xk >= 0.0;
    assert q.r * q.r == V * V + xk * xk;
    SquareAtLeast(q.r, V);
    DivideBack(q.r, V);
    DivideBack(xk, V);
    UnitRotation(q.r, V, xk, q.c, q.s);
    AtLeastOne(q.r, V, q.c);
  }

  lemma DivideBack(a: real, v: real)
    requires v > 0.0
    ensures (a / v) * v == a
  {
  }

  lemma UnitRotation(r: real, v: real, xk: real, c: real, s: real)
    requires v > 0.0 && r == c * v && xk == s * v && r * r == v * v + xk * xk
    ensures c * c == 1.0 + s * s
  {
    var d := c * c - 1.0 - s * s;
    TimesPivot(d, r, v, xk, c, s);
    var e := d * v;
    NoRemainder(e, r, v, xk, c, s);
  }

  lemma TimesPivot(d: real, r: real, v: real, xk: real, c: real, s: real)
    requires d == c * c - 1.0 - s * s && r == c * v && xk == s * v
    ensures d * v == c * r - v - s * xk
  {
  }

  lemma NoRemainder(e: real, r: real, v: real, xk: real, c: real, s: real)
    requires e == c * r - v - s * xk && r == c * v && xk == s * v && r * r == v * v + xk * xk && v > 0.0
    ensures e == 0.0
  {
  }

  lemma AtLeastOne(r: real, v: real, c: real)
    requires v > 0.0 && r >= v && r == c * v
    ensures c >= 1.0
  {
  }

  function Rotated(q: Rotation, entry: real, xj: real): real
    requires q.c != 0.0
  {
    (entry + q.s * xj) / q.c
  }

  function Residual(q: Rotation, rotated: real, xj: real): real { q.c * xj - q.s * rotated }

  /** Between the pivot row and a row below it. */
  lemma PivotPreserved(q: Rotation, xk: real, a: real, xa: real)
    requires Rotates(q, xk)
    ensures q.r * Rotated(q, a, xa) == q.V * a + xk * xa
  {
  }

  /** Between two rows below the pivot. */
  lemma RowsPreserved(q: Rotation, xk: real, a: real, xa: real, b: real, xb: real)
    requires Rotates(q, xk)
    ensures var (p, p') := (Rotated(q, a, xa), Rotated(q, b, xb));
            p * p' + Residual(q, p, xa) * Residual(q, p', xb) == a * b + xa * xb
  {
    var (c, s, p, p') := (q.c, q.s, Rotated(q, a, xa), Rotated(q, b, xb));
    var (z, z') := (Residual(q, p, xa), Residual(q, p', xb));
    DivideBack(a + s * xa, c);
    DivideBack(b + s * xb, c);
    assert c * c == 1.0 + s * s && a == c * p - s * xa && b == c * p' - s * xb;
    assert z == c * xa - s * p && z' == c * xb - s * p';
    hide *;
    Rotate(c, s, p, xa, p', xb, a, b, z, z');
  }

  /** A rotation by (c, s) with c^2 = 1 + s^2 exchanges these two sums of products. */
  lemma Rotate(c: real, s: real, p: real, x: real, p': real, x': real, a: real, b: real, z: real, z': real)
    requires c * c == 1.0 + s * s
    requires a == c * p - s * x && b == c * p' - s * x' && z == c * x - s * p && z' == c * x' - s * p'
    ensures p * p' + z * z' == a * b + x * x'
  {
  }

  /** The step for column k: what becomes of the matrix and of the vector. */
  function StepEntry(R: Matrix, x: Vector, k: nat, q: Rotation, i: nat, j: nat): real
    requires Square(R, |R|) && |x| == |R| && k < |R| && i < |R| && j < |R| && q.c != 0.0
  {
    if j != k || i < k then R[i][j] else if i == k then q.r else Rotated(q, R[i][k], x[i])
  }

  function ColumnStep(R: Matrix, x: Vector, k: nat, q: Rotation): (Matrix, Vector)
    requires Square(R, |R|) && |x| == |R| && k < |R| && q.c != 0.0
  {
    (seq(|R|, i requires 0 <= i < |R| => seq(|R|, j requires 0 <= j < |R| => StepEntry(R, x, k, q, i, j))),
     seq(|R|, i requires 0 <= i < |R| => if i > k then Residual(q, StepEntry(R, x, k, q, i, k), x[i]) else x[i]))
  }

  /** Columns k and up, in order. */
  ghost function UpdateFrom(R: Matrix, x: Vector, k: nat, sqrt: real -> real): (R': Matrix)
    requires IsSqrt(sqrt) && Square(R, |R|) && |x| == |R| && k <= |R|
    ensures |R'| == |R| && Square(R', |R|)
    decreases |R| - k
  {
    if k == |R| then R else
      RotationRotates(R[k][k], x[k], sqrt);
      var (R', x') := ColumnStep(R, x, k, RotationAt(R[k][k], x[k], sqrt));
      UpdateFrom(R', x', k + 1, sqrt)
  }

  // ---------------------------------------------------- what the update achieves

  /** The matrix that the update starts from once its diagonal, from column k on, is raised to EPS where it is less. */
  function RaisedFrom(R: Matrix, k: nat): (R': Matrix)
    requires Square(R, |R|)
    ensures |R'| == |R| && Square(R', |R|)
  {
    seq(|R|, i requires 0 <= i < |R| =>
      seq(|R|, j requires 0 <= j < |R| => if i == j >= k then Max(EPS, R[i][i]) else R[i][j]))
  }

  /** The part of the vector that the columns before k have not yet absorbed. */
  function Rest(x: Vector, k: nat, i: nat): real
    requires i < |x|
  {
    if i < k then 0.0 else x[i]
  }

  /** Entry (i, j) of the outer product of that part with itself. */
  function Outer(x: Vector, k: nat, i: nat, j: nat): real
    requires i < |x| && j < |x|
  {
    Rest(x, k, i) * Rest(x, k, j)
  }

  /** Two matrices with equal rows i and j except in column k. */
  ghost predicate SameBut(A: Matrix, B: Matrix, k: nat, i: nat) {
    && Square(A, |A|) && Square(B, |A|) && i < |A|
    && forall c | 0 <= c < |A| && c != k :: A[i][c] == B[i][c]
  }

  lemma {:induction false} DotSame(A: Matrix, B: Matrix, k: nat, i: nat, j: nat, m: nat)
    requires SameBut(A, B, k, i) && SameBut(A, B, k, j) && m <= |A| && m <= k
    ensures Dot(A, i, j, m) == Dot(B, i, j, m)
  {
    if m > 0 {
      DotSame(A, B, k, i, j, m - 1);
    }
  }

  lemma {:induction false} DotDiffers(A: Matrix, B: Matrix, k: nat, i: nat, j: nat, m: nat,
                                      ai: real, aj: real, bi: real, bj: real)
    requires SameBut(A, B, k, i) && SameBut(A, B, k, j) && k < m <= |A|
    requires ai == A[i][k] && aj == A[j][k] && bi == B[i][k] && bj == B[j][k]
    ensures Dot(A, i, j, m) - ai * aj == Dot(B, i, j, m) - bi * bj
  {
    if m - 1 == k {
      DotSame(A, B, k, i, j, k);
    } else {
      DotDiffers(A, B, k, i, j, m - 1, ai, aj, bi, bj);
    }
  }

  lemma StepLower(R: Matrix, x: Vector, k: nat, q: Rotation)
    requires LowerTriangular(R) && |x| == |R| && k < |R| && q.c != 0.0
    ensures LowerTriangular(ColumnStep(R, x, k, q).0)
  {
  }

  /** What the column step does to one row: `b` and `y` are the row's entry of the column and of the vector before it,
      `u` and `z` after it. */
  ghost predicate RowStep(q: Rotation, xk: real, k: nat, i: nat, b: real, y: real, u: real, z: real) {
    if i < k then b == y == u == z == 0.0
    else if i == k then b == q.V && y == xk && u == q.r && z == 0.0
    else q.c != 0.0 && u == Rotated(q, b, y) && z == Residual(q, u, y)
  }

  lemma StepIsRowStep(R: Matrix, x: Vector, k: nat, q: Rotation, i: nat)
    requires LowerTriangular(R) && |x| == |R| && k < |R| && i < |R|
    requires Rotates(q, x[k]) && q.V == Max(EPS, R[k][k])
    ensures var (R', x') := ColumnStep(R, x, k, q);
            RowStep(q, x[k], k, i, RaisedFrom(R, k)[i][k], Rest(x, k, i), R'[i][k], Rest(x', k + 1, i))
  {
  }

  /** The column step keeps the sum of the outer products of the column and the vector, row by row. */
  lemma RowStepsPreserve(q: Rotation, xk: real, k: nat, i: nat, b: real, y: real, u: real, z: real,
                         j: nat, b': real, y': real, u': real, z': real)
    requires Rotates(q, xk) && RowStep(q, xk, k, i, b, y, u, z) && RowStep(q, xk, k, j, b', y', u', z')
    ensures u * u' + z * z' == b * b' + y * y'
  {
    hide Rotates, Rotated, Residual;
    if i < k {
      ZeroRow(b, y, u, z, b', y', u', z');
    } else if j < k {
      ZeroRow(b', y', u', z', b, y, u, z);
    } else if i == k {
      PivotRow(q, xk, b, y, u, z, j == k, b', y', u', z');
    } else if j == k {
      PivotRow(q, xk, b', y', u', z', false, b, y, u, z);
    } else {
      RowsPreserved(q, xk, b, y, b', y');
    }
  }

  lemma ZeroRow(b: real, y: real, u: real, z: real, b': real, y': real, u': real, z': real)
    requires b == y == u == z == 0.0
    ensures u * u' + z * z' == b * b' + y * y'
  {
  }

  lemma PivotRow(q: Rotation, xk: real, b: real, y: real, u: real, z: real,
                 itself: bool, b': real, y': real, u': real, z': real)
    requires Rotates(q, xk) && b == q.V && y == xk && u == q.r && z == 0.0
    requires itself ==> b' == q.V && y' == xk && u' == q.r && z' == 0.0
    requires !itself ==> q.c != 0.0 && u' == Rotated(q, b', y')
    ensures u * u' + z * z' == b * b' + y * y'
  {
    assert z * z' == 0.0;
    if !itself {
      hide Rotates, Rotated;
      PivotPreserved(q, xk, b', y');
    }
  }

  /** The whole update: R' R'^T is R R^T plus the outer product of x, where R is taken with its diagonal raised to EPS. */
  lemma {:induction false} UpdateIdentity(R: Matrix, x: Vector, k: nat, sqrt: real -> real, i: nat, j: nat)
    requires IsSqrt(sqrt) && LowerTriangular(R) && |x| == |R| && k <= |R| && i < |R| && j < |R|
    ensures Product(UpdateFrom(R, x, k, sqrt), i, j)
            == Product(RaisedFrom(R, k), i, j) + Outer(x, k, i, j)
    decreases |R| - k
  {
    hide UpdateFrom, Product, RaisedFrom, Outer, ColumnStep, Rotates, RotationAt, IsSqrt, Dot, Rest, Max, Hypotenuse;
    if k == |R| {
      UpdateDone(R, x, sqrt, i, j);
    } else {
      var q := RotationAt(R[k][k], x[k], sqrt);
      UpdateUnfolds(R, x, k, sqrt, q);
      var (R', x') := ColumnStep(R, x, k, q);
      StepIdentity(R, x, k, q, i, j);
      UpdateIdentity(R', x', k + 1, sqrt, i, j);
    }
  }

  lemma UpdateDone(R: Matrix, x: Vector, sqrt: real -> real, i: nat, j: nat)
    requires IsSqrt(sqrt) && Square(R, |R|) && |x| == |R| && i < |R| && j < |R|
    ensures Product(UpdateFrom(R, x, |R|, sqrt), i, j)
            == Product(RaisedFrom(R, |R|), i, j) + Outer(x, |R|, i, j)
  {
    NothingRaised(R);
    hide Product;
  }

  lemma UpdateUnfolds(R: Matrix, x: Vector, k: nat, sqrt: real -> real, q: Rotation)
    requires IsSqrt(sqrt) && LowerTriangular(R) && |x| == |R| && k < |R|
    requires q == RotationAt(R[k][k], x[k], sqrt)
    ensures Rotates(q, x[k]) && q.c != 0.0 && q.V == Max(EPS, R[k][k])
    ensures var (R', x') := ColumnStep(R, x, k, q);
            && LowerTriangular(R') && |R'| == |x'| == |R|
            && UpdateFrom(R, x, k, sqrt) == UpdateFrom(R', x', k + 1, sqrt)
  {
    RotationRotates(R[k][k], x[k], sqrt);
    StepLower(R, x, k, q);
  }

  lemma NothingRaised(R: Matrix)
    requires Square(R, |R|)
    ensures RaisedFrom(R, |R|) == R
  {
    forall i | 0 <= i < |R|
      ensures RaisedFrom(R, |R|)[i] == R[i]
    {
    }
  }

  lemma StepIdentity(R: Matrix, x: Vector, k: nat, q: Rotation, i: nat, j: nat)
    requires LowerTriangular(R) && |x| == |R| && k < |R| && i < |R| && j < |R|
    requires Rotates(q, x[k]) && q.V == Max(EPS, R[k][k])
    ensures var (R', x') := ColumnStep(R, x, k, q);
            Product(RaisedFrom(R', k + 1), i, j) + Outer(x', k + 1, i, j)
            == Product(RaisedFrom(R, k), i, j) + Outer(x, k, i, j)
  {
    var (R', x') := ColumnStep(R, x, k, q);
    StepIsRowStep(R, x, k, q, i);
    StepIsRowStep(R, x, k, q, j);
    RaisedSame(R, x, k, q, i);
    RaisedSame(R, x, k, q, j);
    var (A, B) := (RaisedFrom(R', k + 1), RaisedFrom(R, k));
    var (bi, bj, ui, uj) := (B[i][k], B[j][k], R'[i][k], R'[j][k]);
    var (yi, yj, zi, zj) := (Rest(x, k, i), Rest(x, k, j), Rest(x', k + 1, i), Rest(x', k + 1, j));
    OuterIs(x, k, i, j, yi, yj);
    OuterIs(x', k + 1, i, j, zi, zj);
    DotDiffers(A, B, k, i, j, |R|, ui, uj, bi, bj);
    hide *;
    RowStepsPreserve(q, x[k], k, i, bi, yi, ui, zi, j, bj, yj, uj, zj);
  }

  lemma OuterIs(x: Vector, k: nat, i: nat, j: nat, yi: real, yj: real)
    requires i < |x| && j < |x| && yi == Rest(x, k, i) && yj == Rest(x, k, j)
    ensures Outer(x, k, i, j) == yi * yj
  {
  }

  lemma RaisedSame(R: Matrix, x: Vector, k: nat, q: Rotation, i: nat)
    requires Square(R, |R|) && |x| == |R| && k < |R| && q.c != 0.0 && i < |R|
    ensures var R' := ColumnStep(R, x, k, q).0;
            && SameBut(RaisedFrom(R', k + 1), RaisedFrom(R, k), k, i)
            && RaisedFrom(R', k + 1)[i][k] == R'[i][k]
  {
  }

  lemma {:induction false} UpdateLower(R: Matrix, x: Vector, k: nat, sqrt: real -> real)
    requires IsSqrt(sqrt) && LowerTriangular(R) && |x| == |R| && k <= |R|
    ensures var R' := UpdateFrom(R, x, k, sqrt);
            && LowerTriangular(R')
            && (forall c | 0 <= c < k :: R'[c][c] == R[c][c])
            && (forall c | k <= c < |R| :: R'[c][c] >= Max(EPS, R[c][c]))
    decreases |R| - k
  {
    if k < |R| {
      var q := RotationAt(R[k][k], x[k], sqrt);
      RotationRotates(R[k][k], x[k], sqrt);
      var (R', x') := ColumnStep(R, x, k, q);
      StepLower(R, x, k, q);
      UpdateLower(R', x', k + 1, sqrt);
    }
  }
}
