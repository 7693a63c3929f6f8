/** Learning the shape of the proposals (infer/adaptive.cpp): the factors updated in place, and the normalised copies. */
module ProposalShapers {
  import opened RealMath
  import opened Cholesky
  import opened Covariance

  const MIN_RANK: real := 0.0001

  function MatrixOf(a: array2<real>): (R: Matrix)
    requires a.Length0 == a.Length1
    reads a
    ensures |R| == a.Length0 && Square(R, |R|)
    ensures forall i, j | 0 <= i < |R| && 0 <= j < |R| :: R[i][j] == a[i, j]
  {
    seq(a.Length0, i requires 0 <= i < a.Length0 reads a =>
      seq(a.Length0, j requires 0 <= j < a.Length0 reads a => a[i, j]))
  }

  lemma SameMatrix(A: Matrix, B: Matrix)
    requires Square(A, |A|) && Square(B, |A|)
    requires forall i, j | 0 <= i < |A| && 0 <= j < |A| :: A[i][j] == B[i][j]
    ensures A == B
  {
    forall i | 0 <= i < |A|
      ensures A[i] == B[i]
    {
    }
  }

  /** One pass of the outer loop: column k from its diagonal entry down, and the vector with it. */
  method UpdateColumn(R: array2<real>, x: array<real>, k: nat, sqrt: real -> real)
    requires IsSqrt(sqrt) && R.Length0 == R.Length1 == x.Length && k < x.Length
    modifies R, x
    ensures var q := RotationAt(old(R[k, k]), old(x[k]), sqrt);
            q.c != 0.0 && (MatrixOf(R), x[..]) == ColumnStep(old(MatrixOf(R)), old(x[..]), k, q)
  {
    hide MatrixOf;
    ghost var before, rest, n := MatrixOf(R), x[..], x.Length;
    RotationRotates(R[k, k], x[k], sqrt);
    var V := Max(EPS, R[k, k]);
    var r := Hypotenuse(V, x[k], sqrt);
    var c := r / V;
    var s := x[k] / V;
    var q := Rotation(V, r, c, s);
    assert q == RotationAt(R[k, k], x[k], sqrt) && q.c != 0.0;
    hide RotationAt, Hypotenuse, Max, IsSqrt, Rotates, Rotated, Residual;
    R[k, k] := r;
    for j := k + 1 to x.Length
      invariant forall i, m | 0 <= i < n && 0 <= m < n ::
        R[i, m] == if i < j then StepEntry(before, rest, k, q, i, m) else before[i][m]
      invariant forall i | 0 <= i < n ::
        x[i] == if k < i < j then Residual(q, StepEntry(before, rest, k, q, i, k), rest[i]) else rest[i]
    {
      R[j, k] := Rotated(q, R[j, k], x[j]);
      x[j] := Residual(q, R[j, k], x[j]);
    }
    hide StepEntry;
    SameMatrix(MatrixOf(R), ColumnStep(before, rest, k, q).0);
    assert x[..] == ColumnStep(before, rest, k, q).1;
  }

  /** The outer loop of the rank-one update, in place. */
  method RankOne(R: array2<real>, x: array<real>, sqrt: real -> real)
    requires IsSqrt(sqrt) && R.Length0 == R.Length1 == x.Length
    modifies R, x
    ensures MatrixOf(R) == UpdateFrom(old(MatrixOf(R)), old(x[..]), 0, sqrt)
  {
    hide MatrixOf;
    for k := 0 to x.Length
      invariant UpdateFrom(MatrixOf(R), x[..], k, sqrt) == UpdateFrom(old(MatrixOf(R)), old(x[..]), 0, sqrt)
    {
      ghost var before, rest := MatrixOf(R), x[..];
      assert before[k][k] == R[k, k] && rest[k] == x[k];
      UpdateColumn(R, x, k, sqrt);
      hide ColumnStep, RotationAt, IsSqrt;
    }
  }

  // ------------------------------------------------------------ normalisation

  /** The sum of the squares of the first m rows' entries. */
  function SquareSum(R: Matrix, m: nat): real
    requires Square(R, |R|) && m <= |R|
  {
    if m == 0 then 0.0 else SquareSum(R, m - 1) + Product(R, m - 1, m - 1)
  }

  /** Eigen's norm of a matrix. */
  function Norm(R: Matrix, sqrt: real -> real): real
    requires Square(R, |R|)
  {
    sqrt(SquareSum(R, |R|))
  }

  function Raised(R: Matrix, a: real): (R': Matrix)
    requires Square(R, |R|)
    ensures |R'| == |R| && Square(R', |R|)
  {
    seq(|R|, i requires 0 <= i < |R| => seq(|R|, j requires 0 <= j < |R| => if i == j then R[i][j] + a else R[i][j]))
  }

  /** The factor of the proposals: the estimate's shape at the size of the initial ranges, and a little more diagonal. */
  function Normalised(R: Matrix, propNorm: real, sqrt: real -> real): (N: Matrix)
    requires Square(R, |R|)
    ensures |N| == |R| && Square(N, |R|)
  {
    Raised(Scaled(R, propNorm / Max(Norm(R, sqrt), EPS)), MIN_RANK)
  }

  lemma {:induction false} RowSquareAtLeast(R: Matrix, i: nat, c: nat, m: nat)
    requires Square(R, |R|) && i < |R| && m <= |R|
    ensures Dot(R, i, i, m) >= 0.0
    ensures c < m ==> Dot(R, i, i, m) >= R[i][c] * R[i][c]
  {
    if m > 0 {
      var a := R[i][m - 1];
      assert a * a >= 0.0;
      RowSquareAtLeast(R, i, c, m - 1);
    }
  }

  lemma {:induction false} SquareSumAtLeast(R: Matrix, i: nat, m: nat)
    requires Square(R, |R|) && i < |R| && m <= |R|
    ensures SquareSum(R, m) >= 0.0
    ensures i < m ==> SquareSum(R, m) >= R[i][i] * R[i][i]
  {
    if m > 0 {
      SquareSumAtLeast(R, i, m - 1);
      RowSquareAtLeast(R, m - 1, m - 1, |R|);
    }
  }

  lemma {:induction false} SquareSumScaled(R: Matrix, a: real, b: real, m: nat)
    requires Square(R, |R|) && m <= |R| && b == a * a
    ensures SquareSum(Scaled(R, a), m) == b * SquareSum(R, m)
  {
    if m > 0 {
      SquareSumScaled(R, a, b, m - 1);
      DotScaled(R, a, b, m - 1, m - 1, |R|);
      Distribute(b, SquareSum(R, m - 1), Product(R, m - 1, m - 1));
    }
  }

  lemma NormAtLeast(R: Matrix, sqrt: real -> real)
    requires IsSqrt(sqrt) && Square(R, |R|) && |R| > 0 && R[0][0] >= EPS
    ensures Norm(R, sqrt) >= EPS && Norm(R, sqrt) * Norm(R, sqrt) == SquareSum(R, |R|)
  {
    SquareSumAtLeast(R, 0, |R|);
    SquareGrows(EPS, R[0][0]);
    hide SquareSum;
    SquareAtLeast(Norm(R, sqrt), EPS);
  }

  lemma ScaledToNorm(p: real, norm: real, a: real, b: real, sum: real)
    requires norm > 0.0 && a == p / norm && b == a * a && norm * norm == sum
    ensures b * sum == p * p
  {
  }

  /** What the proposals get after any update: lower triangular, a diagonal of at least 1e-4, hence of full rank; and but
      for that 1e-4 its norm is that of the initial ranges, whatever the samples. */
  lemma NormalisedAfterUpdate(L: Matrix, sample: Vector, count: nat, propNorm: real, sqrt: real -> real)
    requires IsSqrt(sqrt) && LowerTriangular(L) && |sample| == |L| > 0 && count > 0 && propNorm >= 0.0
    ensures var R := UpdatedFactor(L, sample, count, sqrt);
            var N := Normalised(R, propNorm, sqrt);
            && LowerTriangular(N)
            && (forall k | 0 <= k < |N| :: N[k][k] >= MIN_RANK)
            && SquareSum(Raised(N, -MIN_RANK), |N|) == propNorm * propNorm
  {
    FactorStaysPositive(L, sample, count, sqrt);
    var R := UpdatedFactor(L, sample, count, sqrt);
    hide UpdatedFactor;
    NormalisedShape(R, propNorm, sqrt);
  }

  lemma NormalisedShape(R: Matrix, propNorm: real, sqrt: real -> real)
    requires IsSqrt(sqrt) && LowerTriangular(R) && |R| > 0 && propNorm >= 0.0 && forall k | 0 <= k < |R| :: R[k][k] >= EPS
    ensures var N := Normalised(R, propNorm, sqrt);
            && LowerTriangular(N)
            && (forall k | 0 <= k < |N| :: N[k][k] >= MIN_RANK)
            && SquareSum(Raised(N, -MIN_RANK), |N|) == propNorm * propNorm
  {
    var N, norm := Normalised(R, propNorm, sqrt), Norm(R, sqrt);
    NormAtLeast(R, sqrt);
    var a := propNorm / norm;
    var b := a * a;
    assert a >= 0.0;
    SquareSumScaled(R, a, b, |R|);
    SameMatrix(Raised(N, -MIN_RANK), Scaled(R, a));
    ScaledLower(R, a);
    forall k | 0 <= k < |N|
      ensures N[k][k] >= MIN_RANK
    {
      assert R[k][k] * a >= 0.0;
    }
    ScaledToNorm(propNorm, norm, a, b, SquareSum(R, |R|));
  }

  /** N is R times one number that is not negative. */
  ghost predicate Proportional(N: Matrix, R: Matrix, a: real)
    requires Square(R, |R|) && Square(N, |R|)
  {
    a >= 0.0 && forall i, j | 0 <= i < |R| && 0 <= j < |R| :: N[i][j] == a * R[i][j]
  }

  /** The covariance N N^T is R R^T brought to another sum of the variances. */
  ghost predicate SameShape(N: Matrix, R: Matrix, variance: real)
    requires Square(R, |R|) && Square(N, |R|)
  {
    forall i, j | 0 <= i < |R| && 0 <= j < |R| :: ShapeAt(N, R, variance, i, j)
  }

  ghost predicate ShapeAt(N: Matrix, R: Matrix, variance: real, i: nat, j: nat)
    requires Square(R, |R|) && Square(N, |R|) && i < |R| && j < |R|
  {
    Multiple(SquareSum(R, |R|), Product(N, i, j)) == Multiple(variance, Product(R, i, j))
  }

  /** But for the 1e-4 on the diagonal the copy has the factor's shape, and the size of the initial ranges. */
  lemma KeepsShape(R: Matrix, propNorm: real, sqrt: real -> real) returns (a: real)
    requires IsSqrt(sqrt) && Square(R, |R|) && |R| > 0 && R[0][0] >= EPS && propNorm >= 0.0
    ensures var N' := Raised(Normalised(R, propNorm, sqrt), -MIN_RANK);
            Proportional(N', R, a) && SameShape(N', R, Multiple(propNorm, propNorm))
  {
    var norm, sum := Norm(R, sqrt), SquareSum(R, |R|);
    NormAtLeast(R, sqrt);
    a := propNorm / norm;
    SameMatrix(Raised(Normalised(R, propNorm, sqrt), -MIN_RANK), Scaled(R, a));
    hide SquareSum, Norm, Normalised, Raised, Product, IsSqrt;
    ScaledToNorm(propNorm, norm, a, a * a, sum);
    ScaledShape(R, a, a * a, Multiple(propNorm, propNorm));
  }

  lemma ScaledShape(R: Matrix, a: real, b: real, variance: real)
    requires Square(R, |R|) && a >= 0.0 && b == a * a && Multiple(b, SquareSum(R, |R|)) == variance
    ensures Proportional(Scaled(R, a), R, a) && SameShape(Scaled(R, a), R, variance)
  {
    ScaledProportional(R, a);
    hide SquareSum, Product, ShapeAt, Multiple, Scaled, Proportional;
    forall i, j | 0 <= i < |R| && 0 <= j < |R|
      ensures ShapeAt(Scaled(R, a), R, variance, i, j)
    {
      ScaledShapeAt(R, a, b, variance, i, j);
    }
  }

  lemma ScaledProportional(R: Matrix, a: real)
    requires Square(R, |R|) && a >= 0.0
    ensures Proportional(Scaled(R, a), R, a)
  {
  }

  lemma ScaledShapeAt(R: Matrix, a: real, b: real, variance: real, i: nat, j: nat)
    requires Square(R, |R|) && b == a * a && Multiple(b, SquareSum(R, |R|)) == variance && i < |R| && j < |R|
    ensures ShapeAt(Scaled(R, a), R, variance, i, j)
  {
    ScaledProductIs(R, a, b, i, j);
    hide SquareSum, Product, Scaled, Square, Multiple;
    Rescale(SquareSum(R, |R|), b, Product(R, i, j), variance, Product(Scaled(R, a), i, j));
  }

  lemma ScaledProductIs(R: Matrix, a: real, b: real, i: nat, j: nat)
    requires Square(R, |R|) && i < |R| && j < |R| && b == a * a
    ensures Product(Scaled(R, a), i, j) == Multiple(b, Product(R, i, j))
  {
    DotScaled(R, a, b, i, j, |R|);
  }

  lemma Rescale(sum: real, b: real, x: real, p: real, y: real)
    requires Multiple(b, sum) == p && y == Multiple(b, x)
    ensures Multiple(sum, y) == Multiple(p, x)
  {
    assert sum * (b * x) == (b * sum) * x;
  }

  /** The copy after an update has the shape of the updated factor. */
  lemma ShapeAfterUpdate(L: Matrix, sample: Vector, count: nat, propNorm: real, sqrt: real -> real) returns (a: real)
    requires IsSqrt(sqrt) && LowerTriangular(L) && |sample| == |L| > 0 && count > 0 && propNorm >= 0.0
    ensures var R := UpdatedFactor(L, sample, count, sqrt);
            var N' := Raised(Normalised(R, propNorm, sqrt), -MIN_RANK);
            Proportional(N', R, a) && SameShape(N', R, Multiple(propNorm, propNorm))
  {
    FactorStaysPositive(L, sample, count, sqrt);
    hide UpdatedFactor, Proportional, SameShape, Normalised, IsSqrt;
    a := KeepsShape(UpdatedFactor(L, sample, count, sqrt), propNorm, sqrt);
  }

  // ------------------------------------------------- the proposals' covariance

  /** An entry of the weighted batch covariance, times its count, and the sum of its first m diagonal entries. */
  function BatchEntry(range: Vector, count: nat, samples: seq<Vector>, i: nat, j: nat): real
    requires i < |range| && j < |range| && forall s | s in samples :: |s| == |range|
  {
    count as real * RangeSquare(range, i, j) + BatchSum(samples, i, j)
  }

  function BatchTrace(range: Vector, count: nat, samples: seq<Vector>, m: nat): real
    requires m <= |range| && forall s | s in samples :: |s| == |range|
  {
    if m == 0 then 0.0 else BatchTrace(range, count, samples, m - 1) + BatchEntry(range, count, samples, m - 1, m - 1)
  }

  lemma {:induction false} TraceIs(L: Matrix, range: Vector, count: nat, samples: seq<Vector>, m: nat)
    requires Tracks(L, range, count, samples) && m <= |L|
    ensures Multiple((count + |samples|) as real, SquareSum(L, m)) == BatchTrace(range, count, samples, m)
  {
    if m > 0 {
      TraceIs(L, range, count, samples, m - 1);
      assert SumsTo(L, range, count, samples, m - 1, m - 1);
      hide Tracks, SumsTo, Product;
      Distribute((count + |samples|) as real, SquareSum(L, m - 1), Product(L, m - 1, m - 1));
    }
  }

  /** The covariance N N^T is the batch covariance brought to another sum of the variances. */
  ghost predicate FollowsBatch(N: Matrix, range: Vector, count: nat, samples: seq<Vector>, variance: real)
    requires Square(N, |range|) && forall s | s in samples :: |s| == |range|
  {
    forall i, j | 0 <= i < |range| && 0 <= j < |range| :: BatchAt(N, range, count, samples, variance, i, j)
  }

  ghost predicate BatchAt(N: Matrix, range: Vector, count: nat, samples: seq<Vector>, variance: real, i: nat, j: nat)
    requires Square(N, |range|) && i < |range| && j < |range| && forall s | s in samples :: |s| == |range|
  {
    Multiple(BatchTrace(range, count, samples, |range|), Product(N, i, j))
    == Multiple(variance, BatchEntry(range, count, samples, i, j))
  }

  lemma ShapeOfBatchAt(N: Matrix, R: Matrix, range: Vector, count: nat, samples: seq<Vector>, variance: real, i: nat, j: nat)
    requires Tracks(R, range, count, samples) && Square(N, |R|) && i < |R| && j < |R| && ShapeAt(N, R, variance, i, j)
    ensures BatchAt(N, range, count, samples, variance, i, j)
  {
    TraceIs(R, range, count, samples, |range|);
    EntryIs(R, range, count, samples, i, j);
    hide Tracks, BatchTrace, SquareSum, Product, Square, BatchEntry, Multiple;
    TotalCancels((count + |samples|) as real, SquareSum(R, |R|), Product(N, i, j), variance, Product(R, i, j));
  }

  lemma EntryIs(L: Matrix, range: Vector, count: nat, samples: seq<Vector>, i: nat, j: nat)
    requires Tracks(L, range, count, samples) && i < |L| && j < |L|
    ensures Multiple((count + |samples|) as real, Product(L, i, j)) == BatchEntry(range, count, samples, i, j)
  {
    assert SumsTo(L, range, count, samples, i, j);
    hide Tracks, Product, BatchSum, RangeSquare;
  }

  lemma ShapeOfBatch(N: Matrix, R: Matrix, range: Vector, count: nat, samples: seq<Vector>, variance: real)
    requires Tracks(R, range, count, samples) && Square(N, |R|) && SameShape(N, R, variance)
    ensures FollowsBatch(N, range, count, samples, variance)
  {
    forall i, j | 0 <= i < |range| && 0 <= j < |range|
      ensures BatchAt(N, range, count, samples, variance, i, j)
    {
      ShapeOfBatchAt(N, R, range, count, samples, variance, i, j);
    }
    hide BatchAt, ShapeAt, Tracks;
  }

  lemma TotalCancels(total: real, sum: real, y: real, p: real, x: real)
    requires Multiple(sum, y) == Multiple(p, x)
    ensures Multiple(Multiple(total, sum), y) == Multiple(p, Multiple(total, x))
  {
    assert (total * sum) * y == total * (sum * y);
    assert total * (p * x) == p * (total * x);
  }

  /** For counts and ranges that never clamp, what the proposals get after any samples is their batch covariance, scaled to
      the norm of the initial ranges, with 1e-4 more on the diagonal of its factor. */
  lemma ProposalsFollowBatch(range: Vector, count: nat, samples: seq<Vector>, propNorm: real, sqrt: real -> real)
    requires IsSqrt(sqrt) && 0 < count && count + |samples| < UINT_RANGE && Wide(range) && range != [] && samples != []
    requires (forall s | s in samples :: |s| == |range|) && propNorm >= 0.0
    ensures var N' := Raised(Normalised(AfterAll(Diagonal(range), count, samples, sqrt), propNorm, sqrt), -MIN_RANK);
            FollowsBatch(N', range, count, samples, Multiple(propNorm, propNorm))
  {
    hide AfterAll, Diagonal, IsSqrt, Wide, FollowsBatch, SameShape, Proportional, Normalised, Tracks, Raised, LowerTriangular,
         NothingClamped;
    var R := AfterAll(Diagonal(range), count, samples, sqrt);
    assert samples[..|samples|] == samples;
    NeverClamps(range, count, samples, |samples|, sqrt);
    FactorPositive(range, count, samples, sqrt);
    var a := KeepsShape(R, propNorm, sqrt);
    ShapeOfBatch(Raised(Normalised(R, propNorm, sqrt), -MIN_RANK), R, range, count, samples, Multiple(propNorm, propNorm));
  }

  lemma FactorPositive(range: Vector, count: nat, samples: seq<Vector>, sqrt: real -> real)
    requires IsSqrt(sqrt) && samples != [] && range != [] && forall s | s in samples :: |s| == |range|
    ensures var R := AfterAll(Diagonal(range), count, samples, sqrt);
            R[0][0] >= EPS
  {
    hide UpdatedFactor, IsSqrt, LowerTriangular, Diagonal;
    var n := |samples| - 1;
    var L := AfterAll(Diagonal(range), count, samples[..n], sqrt);
    AfterAllLower(range, count, samples[..n], sqrt);
    assert samples[n] in samples;
    FactorStaysPositive(L, samples[n], count + n + 1, sqrt);
    assert AfterAll(Diagonal(range), count, samples, sqrt) == UpdatedFactor(L, samples[n], count + n + 1, sqrt);
  }

  lemma {:induction false} AfterAllLower(range: Vector, count: nat, samples: seq<Vector>, sqrt: real -> real)
    requires IsSqrt(sqrt) && forall s | s in samples :: |s| == |range|
    ensures LowerTriangular(AfterAll(Diagonal(range), count, samples, sqrt))
  {
    hide UpdatedFactor;
    if samples != [] {
      var n := |samples| - 1;
      AfterAllLower(range, count, samples[..n], sqrt);
      FactorStaysPositive(AfterAll(Diagonal(range), count, samples[..n], sqrt), samples[n], count + n + 1, sqrt);
    }
  }

  lemma IsScaled(R: Matrix, R': Matrix, a: real)
    requires Square(R, |R|) && Square(R', |R|) && forall i, j | 0 <= i < |R| && 0 <= j < |R| :: R'[i][j] == R[i][j] * a
    ensures R' == Scaled(R, a)
  {
    SameMatrix(R', Scaled(R, a));
  }

  /** The factor is what the samples, one after the other, make of the initial ranges. */
  ghost predicate Learned(R: array2<real>, range: Vector, count: nat, samples: seq<Vector>, sqrt: real -> real)
    reads R
  {
    && IsSqrt(sqrt) && R.Length0 == R.Length1 == |range| && (forall s | s in samples :: |s| == |range|)
    && MatrixOf(R) == AfterAll(Diagonal(range), count, samples, sqrt)
  }

  lemma LearnsNext(R: array2<real>, before: Matrix, range: Vector, count: nat, samples: seq<Vector>, sample: Vector,
                   sqrt: real -> real)
    requires IsSqrt(sqrt) && R.Length0 == R.Length1 == |range| == |sample|
    requires (forall s | s in samples :: |s| == |range|) && before == AfterAll(Diagonal(range), count, samples, sqrt)
    requires MatrixOf(R) == UpdatedFactor(before, sample, count + |samples| + 1, sqrt)
    ensures Learned(R, range, count, samples + [sample], sqrt)
  {
    AfterNext(Diagonal(range), count, samples, sample, sqrt);
    hide UpdatedFactor, AfterAll, Diagonal, MatrixOf;
  }

  method ScaleInPlace(R: array2<real>, a: real)
    requires R.Length0 == R.Length1
    modifies R
    ensures MatrixOf(R) == Scaled(old(MatrixOf(R)), a)
  {
    hide MatrixOf, Scaled;
    ghost var before := MatrixOf(R);
    forall i, j | 0 <= i < R.Length0 && 0 <= j < R.Length1 {
      R[i, j] := R[i, j] * a;
    }
    ghost var R' := MatrixOf(R);
    assert forall i, j | 0 <= i < R.Length0 && 0 <= j < R.Length0 :: R'[i][j] == before[i][j] * a;
    IsScaled(before, R', a);
  }

  method Normalise(R: array2<real>, N: array2<real>, propNorm: real, sqrt: real -> real)
    requires R != N && R.Length0 == R.Length1 == N.Length0 == N.Length1
    modifies N
    ensures MatrixOf(N) == Normalised(MatrixOf(R), propNorm, sqrt)
  {
    hide MatrixOf, Scaled, Raised, Norm;
    var a := propNorm / Max(Norm(MatrixOf(R), sqrt), EPS);
    forall i, j | 0 <= i < R.Length0 && 0 <= j < R.Length1 {
      N[i, j] := R[i, j];
    }
    SameMatrix(MatrixOf(N), MatrixOf(R));
    ScaleInPlace(N, a);
    RaiseInPlace(N, MIN_RANK);
  }

  method RaiseInPlace(R: array2<real>, a: real)
    requires R.Length0 == R.Length1
    modifies R
    ensures MatrixOf(R) == Raised(old(MatrixOf(R)), a)
  {
    hide MatrixOf;
    forall i | 0 <= i < R.Length0 {
      R[i, i] := R[i, i] + a;
    }
    SameMatrix(MatrixOf(R), Raised(old(MatrixOf(R)), a));
  }

  /** What update does to the factor and the normalised copy of one chain, `n` being its count with the new sample. */
  method LearnSample(R: array2<real>, N: array2<real>, sample: Vector, n: nat, propNorm: real, sqrt: real -> real,
                     ghost range: Vector, ghost count: nat, ghost samples: seq<Vector>)
    requires Learned(R, range, count, samples, sqrt) && |sample| == |range| && n == count + |samples| + 1
    requires R != N && N.Length0 == N.Length1 == |range|
    modifies R, N
    ensures Learned(R, range, count, samples + [sample], sqrt)
    ensures MatrixOf(R) == UpdatedFactor(old(MatrixOf(R)), sample, n, sqrt)
    ensures MatrixOf(N) == Normalised(MatrixOf(R), propNorm, sqrt)
  {
    ghost var before := MatrixOf(R);
    RootNonzero(n, sqrt);
    var root, shrink := sqrt(n as real), Shrink(n, sqrt);
    var x := new real[|sample|](k requires 0 <= k < |sample| => sample[k] / root);
    assert x[..] == Divided(sample, root);
    ScaleInPlace(R, shrink);
    RankOne(R, x, sqrt);
    LearnsNext(R, before, range, count, samples, sample, sqrt);
    hide Learned, UpdatedFactor, Normalised;
    Normalise(R, N, propNorm, sqrt);
  }

  /** The sum of the squares of a vector's first m entries. */
  function Squares(v: Vector, m: nat): real
    requires m <= |v|
  {
    if m == 0 then 0.0 else Squares(v, m - 1) + SquareOf(v[m - 1])
  }

  function Quarter(min: Vector, max: Vector): (range: Vector)
    requires |min| == |max|
    ensures |range| == |min|
    ensures forall k | 0 <= k < |min| :: min[k] + 4.0 * range[k] == max[k]
  {
    seq(|min|, k requires 0 <= k < |min| => (max[k] - min[k]) / 4.0)
  }

  /** Eigen's norm of the initial factor is that of the ranges. */
  lemma {:induction false} RangesNorm(v: Vector, m: nat)
    requires m <= |v|
    ensures SquareSum(Diagonal(v), m) == Squares(v, m)
  {
    if m > 0 {
      RangesNorm(v, m - 1);
      DiagonalProduct(v, m - 1, m - 1);
      hide Diagonal, Product;
    }
  }

  lemma WidthPositive(min: Vector, max: Vector, sqrt: real -> real)
    requires IsSqrt(sqrt) && |min| == |max| && exists k | 0 <= k < |min| :: min[k] != max[k]
    ensures var range := Quarter(min, max);
            var norm := sqrt(Squares(range, |range|));
            norm > 0.0 && norm * norm == Squares(range, |range|)
  {
    var k :| 0 <= k < |min| && min[k] != max[k];
    var range := Quarter(min, max);
    assert range[k] != 0.0;
    SquaresPositive(range, |range|, k);
    hide Squares;
    assert sqrt(Squares(range, |range|)) != 0.0;
  }

  lemma LearnedNothing(L: seq<array2<real>>, range: Vector, count: nat, sqrt: real -> real)
    requires IsSqrt(sqrt) && forall R | R in L :: R.Length0 == R.Length1 == |range| && MatrixOf(R) == Diagonal(range)
    ensures forall R | R in L :: Learned(R, range, count, [], sqrt)
  {
    hide MatrixOf, Diagonal, IsSqrt;
  }

  /** One diagonal matrix for each chain. */
  method NewFactors(diagonal: Vector, chains: nat) returns (a: seq<array2<real>>)
    ensures |a| == chains && fresh(a)
    ensures forall i | 0 <= i < chains :: a[i].Length0 == a[i].Length1 == |diagonal| && MatrixOf(a[i]) == Diagonal(diagonal)
    ensures forall i, j | 0 <= i < j < chains :: a[i] != a[j]
  {
    hide MatrixOf, Diagonal;
    a := [];
    for i := 0 to chains
      invariant |a| == i && fresh(a)
      invariant forall k | 0 <= k < i :: a[k].Length0 == a[k].Length1 == |diagonal| && MatrixOf(a[k]) == Diagonal(diagonal)
      invariant forall k, j | 0 <= k < j < i :: a[k] != a[j]
    {
      var factor := NewDiagonal(diagonal);
      a := a + [factor];
    }
  }

  /** Hence the factor held in memory is the exact weighted batch covariance whenever the ranges are ample. */
  lemma LearnedIsBatch(R: array2<real>, range: Vector, count: nat, samples: seq<Vector>, sqrt: real -> real)
    requires Learned(R, range, count, samples, sqrt) && Ample(range, count, count + |samples|)
    ensures Tracks(MatrixOf(R), range, count, samples)
  {
    hide AfterAll, Diagonal, Tracks, MatrixOf, Ample, IsSqrt;
    BatchCovariance(range, count, samples, sqrt);
  }

  /** Which they are for the counters of the source: started above zero, and kept below 2^32 by every update. */
  lemma LearnedIn32Bits(R: array2<real>, range: Vector, count: nat, samples: seq<Vector>, sqrt: real -> real)
    requires Learned(R, range, count, samples, sqrt) && Wide(range) && 0 < count && count + |samples| < UINT_RANGE
    ensures Tracks(MatrixOf(R), range, count, samples)
    ensures count + |samples| + 1 < UINT_RANGE ==> NothingClamped(MatrixOf(R), count + |samples| + 1, sqrt)
  {
    hide AfterAll, Diagonal, Tracks, MatrixOf, Ample, IsSqrt, Wide, NothingClamped;
    AmpleIn32Bits(range, count, count + |samples|);
    LearnedIsBatch(R, range, count, samples, sqrt);
    if count + |samples| + 1 < UINT_RANGE {
      AmpleIn32Bits(range, count, count + |samples| + 1);
      TracksUnclamped(MatrixOf(R), range, count, samples, sqrt);
    }
  }

  lemma LearnedProposals(R: array2<real>, range: Vector, count: nat, samples: seq<Vector>, propNorm: real, sqrt: real -> real)
    requires Learned(R, range, count, samples, sqrt) && Wide(range) && 0 < count && count + |samples| < UINT_RANGE
    requires range != [] && samples != [] && propNorm >= 0.0
    ensures forall s | s in samples :: |s| == |range|
    ensures FollowsBatch(Raised(Normalised(MatrixOf(R), propNorm, sqrt), -MIN_RANK), range, count, samples,
                         Multiple(propNorm, propNorm))
  {
    hide MatrixOf, IsSqrt, Wide, Normalised, Raised, FollowsBatch, Diagonal, AfterAll;
    ProposalsFollowBatch(range, count, samples, propNorm, sqrt);
  }

  /** infer/adaptive.hpp: the learned factors of all chains. `seen` records the samples of each chain. */
  class ProposalShaper {
    const nDims: nat
    const nChains: nat
    const propNorm: real
    const initialCount: nat
    const sqrt: real -> real
    ghost const range: Vector
    var count: seq<nat>
    var L: seq<array2<real>>
    var N: seq<array2<real>>
    ghost var seen: seq<seq<Vector>>

    ghost predicate Shaped()
      reads this
    {
      && IsSqrt(sqrt)
      && |range| == nDims
      && |count| == |L| == |N| == |seen| == nChains
      && (forall i | 0 <= i < nChains :: L[i].Length0 == L[i].Length1 == N[i].Length0 == N[i].Length1 == nDims)
      && (forall i, j | 0 <= i < nChains && 0 <= j < nChains :: L[i] != N[j] && (i != j ==> L[i] != L[j] && N[i] != N[j]))
      && (forall i | 0 <= i < nChains :: count[i] == initialCount + |seen[i]| < UINT_RANGE)
      && propNorm > 0.0
    }

    /** The copy for the proposals is that of the newest factor. */
    ghost predicate Copied(i: nat)
      requires Shaped() && i < nChains
      reads this, L, N
    {
      MatrixOf(N[i]) == if seen[i] == [] then Diagonal(Divided(range, propNorm))
                        else Normalised(MatrixOf(L[i]), propNorm, sqrt)
    }

    /** Every chain's factor has learned exactly its samples. */
    ghost predicate Valid()
      reads this, L, N
    {
      Shaped() && forall i | 0 <= i < nChains :: Learned(L[i], range, initialCount, seen[i], sqrt) && Copied(i)
    }

    /** A quarter of the bounds' width seeds every factor; a box without any width divides by zero. */
    constructor (nStacks: nat, nTemps: nat, min: Vector, max: Vector, initialCount: nat, sqrt: real -> real)
      requires initialCount < UINT_RANGE && IsSqrt(sqrt) && |min| == |max| && exists k | 0 <= k < |min| :: min[k] != max[k]
      ensures Valid() && fresh(L) && fresh(N)
      ensures nChains == nStacks * nTemps && nDims == |min| && this.initialCount == initialCount && this.sqrt == sqrt
      ensures range == Quarter(min, max)
      ensures propNorm > 0.0 && propNorm * propNorm == Squares(range, nDims)
      ensures forall i | 0 <= i < nChains :: seen[i] == [] && MatrixOf(N[i]) == Diagonal(Divided(range, propNorm))
    {
      hide Diagonal, Divided, Quarter, Squares, MatrixOf, Learned, IsSqrt;
      var chains, quarter := nStacks * nTemps, Quarter(min, max);
      var norm := sqrt(Squares(quarter, |quarter|));
      this.nDims, this.nChains, this.propNorm, this.range, this.initialCount, this.sqrt :=
        |min|, chains, norm, quarter, initialCount, sqrt;
      count, L, N, seen := seq(chains, i => initialCount), [], [], seq(chains, i => []);
      new;
      assert norm > 0.0 && norm * norm == Squares(quarter, |quarter|) by {
        WidthPositive(min, max, sqrt);
      }
      L := NewFactors(quarter, chains);
      N := NewFactors(Divided(quarter, norm), chains);
      LearnedNothing(L, quarter, initialCount, sqrt);
    }

    /** Whatever was learned: each factor is the exact weighted batch covariance of its chain's samples, and the update to
        come will not clamp it either. */
    lemma ExactCovariance(i: nat)
      requires Valid() && i < nChains && 0 < initialCount && Wide(range)
      ensures Tracks(MatrixOf(L[i]), range, initialCount, seen[i])
      ensures count[i] + 1 < UINT_RANGE ==> NothingClamped(MatrixOf(L[i]), count[i] + 1, sqrt)
    {
      hide Tracks, MatrixOf, IsSqrt, Wide, NothingClamped, Learned;
      LearnedIn32Bits(L[i], range, initialCount, seen[i], sqrt);
    }

    lemma Follows(i: nat)
      requires Valid() && i < nChains
      ensures Shaped() && Learned(L[i], range, initialCount, seen[i], sqrt)
      ensures L[i].Length0 == L[i].Length1 == N[i].Length0 == N[i].Length1 == |range| == nDims && propNorm > 0.0
      ensures |L| == |seen| == nChains && initialCount + |seen[i]| < UINT_RANGE
      ensures seen[i] != [] ==> MatrixOf(N[i]) == Normalised(MatrixOf(L[i]), propNorm, sqrt)
    {
      hide Learned, MatrixOf, Normalised, Diagonal, Divided;
      assert Copied(i);
    }

    /** But for the 1e-4 the covariance of the proposals is the batch covariance, at the size of the initial ranges. */
    ghost predicate ProposesBatch(i: nat)
      requires Shaped() && i < nChains
      reads this, L, N
    {
      && (forall s | s in seen[i] :: |s| == |range|)
      && FollowsBatch(Raised(MatrixOf(N[i]), -MIN_RANK), range, initialCount, seen[i], Multiple(propNorm, propNorm))
    }

    /** And that is what the proposals use once there are samples. */
    lemma ExactProposals(i: nat)
      requires Valid() && i < nChains && 0 < initialCount && Wide(range) && seen[i] != [] && nDims > 0
      ensures ProposesBatch(i)
    {
      hide *;
      Follows(i);
      LearnedProposals(L[i], range, initialCount, seen[i], propNorm, sqrt);
      ProposesIf(i);
    }

    lemma ProposesIf(i: nat)
      requires Shaped() && i < nChains && forall s | s in seen[i] :: |s| == |range|
      requires FollowsBatch(Raised(MatrixOf(N[i]), -MIN_RANK), range, initialCount, seen[i], Multiple(propNorm, propNorm))
      ensures ProposesBatch(i)
    {
      hide Raised, MatrixOf, FollowsBatch;
    }

    method Update(i: nat, sample: Vector)
      requires Valid() && i < nChains && |sample| == nDims && count[i] + 1 < UINT_RANGE
      modifies this`count, this`seen, L[i], N[i]
      ensures Valid()
      ensures count == old(count)[i := old(count[i]) + 1] && seen == old(seen)[i := old(seen[i]) + [sample]]
      ensures MatrixOf(L[i]) == UpdatedFactor(old(MatrixOf(L[i])), sample, count[i], sqrt)
      ensures MatrixOf(N[i]) == Normalised(MatrixOf(L[i]), propNorm, sqrt)
    {
      hide MatrixOf, Learned, UpdatedFactor, Normalised, IsSqrt;
      count := count[i := count[i] + 1];
      LearnSample(L[i], N[i], sample, count[i], propNorm, sqrt, range, initialCount, seen[i]);
      seen := seen[i := seen[i] + [sample]];
    }
  }

  method NewDiagonal(v: Vector) returns (a: array2<real>)
    ensures fresh(a) && a.Length0 == a.Length1 == |v| && MatrixOf(a) == Diagonal(v)
  {
    a := new real[|v|, |v|]((i, j) => 0.0);
    forall i | 0 <= i < |v| {
      a[i, i] := v[i];
    }
    SameMatrix(MatrixOf(a), Diagonal(v));
  }

  lemma {:induction false} SquaresPositive(v: Vector, m: nat, k: nat)
    requires m <= |v|
    ensures Squares(v, m) >= 0.0
    ensures k < m && v[k] != 0.0 ==> Squares(v, m) > 0.0
  {
    hide SquareOf;
    if m > 0 {
      SquaresPositive(v, m - 1, k);
      if v[m - 1] != 0.0 {
        SquarePositive(v[m - 1]);
      }
    }
  }
}
