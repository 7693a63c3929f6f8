/** What the running Cholesky factor of ProposalShaper::update stands for (infer/adaptive.cpp): the scaled batch
    covariance of all the samples. */
module Covariance {
  import opened RealMath
  import opened Cholesky

  function Scaled(R: Matrix, a: real): (R': Matrix)
    requires Square(R, |R|)
    ensures |R'| == |R| && Square(R', |R|)
  {
    seq(|R|, i requires 0 <= i < |R| => seq(|R|, j requires 0 <= j < |R| => R[i][j] * a))
  }

  function Divided(v: Vector, root: real): (v': Vector)
    requires root != 0.0
    ensures |v'| == |v|
  {
    seq(|v|, i requires 0 <= i < |v| => v[i] / root)
  }

  /** The factor by which the old estimate shrinks. */
  function Shrink(count: nat, sqrt: real -> real): real
    requires count > 0
  {
    sqrt((count as real - 1.0) / count as real)
  }

  lemma RootNonzero(count: nat, sqrt: real -> real)
    requires IsSqrt(sqrt) && count > 0
    ensures sqrt(count as real) > 0.0 && sqrt(count as real) * sqrt(count as real) == count as real
  {
  }

  lemma ShrinkSquare(count: nat, sqrt: real -> real)
    requires IsSqrt(sqrt) && count > 0
    ensures Shrink(count, sqrt) >= 0.0
    ensures Shrink(count, sqrt) * Shrink(count, sqrt) == (count as real - 1.0) / count as real
  {
  }

  /** update: the new factor after one sample, when `count` already includes it. */
  ghost function UpdatedFactor(L: Matrix, sample: Vector, count: nat, sqrt: real -> real): (L': Matrix)
    requires IsSqrt(sqrt) && Square(L, |L|) && |sample| == |L| && count > 0
    ensures |L'| == |L| && Square(L', |L|)
  {
    RootNonzero(count, sqrt);
    UpdateFrom(Scaled(L, Shrink(count, sqrt)), Divided(sample, sqrt(count as real)), 0, sqrt)
  }

  // ------------------------------------------------------------- one update

  lemma {:induction false} DotScaled(R: Matrix, a: real, b: real, i: nat, j: nat, m: nat)
    requires Square(R, |R|) && i < |R| && j < |R| && m <= |R| && b == a * a
    ensures Dot(Scaled(R, a), i, j, m) == b * Dot(R, i, j, m)
  {
    if m > 0 {
      DotScaled(R, a, b, i, j, m - 1);
      OneScaled(R[i][m - 1], R[j][m - 1], a, b);
      Distribute(b, Dot(R, i, j, m - 1), R[i][m - 1] * R[j][m - 1]);
    }
  }

  lemma OneScaled(x: real, y: real, a: real, b: real)
    requires b == a * a
    ensures (x * a) * (y * a) == b * (x * y)
  {
  }

  lemma Distribute(b: real, x: real, y: real)
    ensures b * (x + y) == b * x + b * y
  {
  }

  lemma ProductDivided(x: real, y: real, root: real, count: real)
    requires root > 0.0 && root * root == count
    ensures count * ((x / root) * (y / root)) == x * y
  {
    var p, q := x / root, y / root;
    DivideBack(x, root);
    DivideBack(y, root);
    assert x == p * root && y == q * root;
    Regroup(x, y, p, q, root, count);
  }

  lemma Regroup(x: real, y: real, p: real, q: real, root: real, count: real)
    requires x == p * root && y == q * root && count == root * root
    ensures count * (p * q) == x * y
  {
  }

  lemma ShrinkTimesCount(b: real, n: real, x: real)
    requires n > 0.0 && b == (n - 1.0) / n
    ensures n * (b * x) == (n - 1.0) * x
  {
  }

  ghost predicate Nonnegative(L: Matrix) {
    LowerTriangular(L) && forall k | 0 <= k < |L| :: L[k][k] >= 0.0
  }

  /** No diagonal entry is so small after shrinking that the source raises it. */
  ghost predicate NothingClamped(L: Matrix, count: nat, sqrt: real -> real)
    requires Square(L, |L|) && count > 0
  {
    forall k | 0 <= k < |L| :: L[k][k] * Shrink(count, sqrt) >= EPS
  }

  /** The weighted running covariance, entry by entry. */
  ghost predicate Accumulates(L: Matrix, L': Matrix, sample: Vector, count: nat)
    requires Square(L, |L|) && Square(L', |L|) && |L'| == |L| == |sample|
  {
    forall i, j | 0 <= i < |L| && 0 <= j < |L| :: AccumulatesAt(L, L', sample, count, i, j)
  }

  ghost predicate AccumulatesAt(L: Matrix, L': Matrix, sample: Vector, count: nat, i: nat, j: nat)
    requires Square(L, |L|) && Square(L', |L|) && |L'| == |L| == |sample| && i < |L| && j < |L|
  {
    count as real * Product(L', i, j) == (count as real - 1.0) * Product(L, i, j) + sample[i] * sample[j]
  }

  lemma ScaledLower(L: Matrix, a: real)
    requires LowerTriangular(L)
    ensures LowerTriangular(Scaled(L, a))
  {
  }

  /** Without any assumption: the update adds the sample's outer product to the shrunk factor with its diagonal raised. */
  lemma FactorIdentity(L: Matrix, sample: Vector, count: nat, sqrt: real -> real, i: nat, j: nat)
    requires IsSqrt(sqrt) && LowerTriangular(L) && |sample| == |L| && count > 0 && i < |L| && j < |L|
    ensures count as real * Product(UpdatedFactor(L, sample, count, sqrt), i, j)
            == count as real * Product(RaisedFrom(Scaled(L, Shrink(count, sqrt)), 0), i, j) + sample[i] * sample[j]
  {
    hide Dot, Product, UpdateFrom, RaisedFrom, Outer, Rest, IsSqrt, Max, Divided, Scaled, Shrink;
    RootNonzero(count, sqrt);
    var R, x, n, product := Scaled(L, Shrink(count, sqrt)), Divided(sample, sqrt(count as real)), count as real,
                            sample[i] * sample[j];
    ScaledLower(L, Shrink(count, sqrt));
    assert n * Outer(x, 0, i, j) == product by {
      OuterDivided(sample, sqrt(count as real), count as real, i, j);
    }
    ScaledIdentity(R, x, n, product, sqrt, i, j);
  }

  lemma ScaledIdentity(R: Matrix, x: Vector, n: real, product: real, sqrt: real -> real, i: nat, j: nat)
    requires IsSqrt(sqrt) && LowerTriangular(R) && |x| == |R| && i < |R| && j < |R| && n * Outer(x, 0, i, j) == product
    ensures n * Product(UpdateFrom(R, x, 0, sqrt), i, j) == n * Product(RaisedFrom(R, 0), i, j) + product
  {
    hide Dot, Product, UpdateFrom, RaisedFrom, Outer, Rest, IsSqrt, Max;
    var P, Q, o := Product(UpdateFrom(R, x, 0, sqrt), i, j), Product(RaisedFrom(R, 0), i, j), Outer(x, 0, i, j);
    UpdateIdentity(R, x, 0, sqrt, i, j);
    TimesSum(n, P, Q, o, product);
  }

  lemma TimesSum(n: real, p: real, a: real, b: real, nb: real)
    requires p == a + b && n * b == nb
    ensures n * p == n * a + nb
  {
  }

  lemma OuterDivided(sample: Vector, root: real, n: real, i: nat, j: nat)
    requires root > 0.0 && root * root == n && i < |sample| && j < |sample|
    ensures n * Outer(Divided(sample, root), 0, i, j) == sample[i] * sample[j]
  {
    var (a, b) := (sample[i], sample[j]);
    OuterIs(Divided(sample, root), 0, i, j, a / root, b / root);
    hide *;
    ProductDivided(a, b, root, n);
  }

  lemma UnclampedIsScaled(R: Matrix)
    requires LowerTriangular(R) && forall k | 0 <= k < |R| :: R[k][k] >= EPS
    ensures RaisedFrom(R, 0) == R
  {
    forall i | 0 <= i < |R|
      ensures RaisedFrom(R, 0)[i] == R[i]
    {
    }
  }

  lemma ScaledProduct(L: Matrix, count: nat, sqrt: real -> real, i: nat, j: nat)
    requires IsSqrt(sqrt) && Square(L, |L|) && count > 0 && i < |L| && j < |L|
    ensures count as real * Product(Scaled(L, Shrink(count, sqrt)), i, j) == (count as real - 1.0) * Product(L, i, j)
  {
    var a := Shrink(count, sqrt);
    ShrinkSquare(count, sqrt);
    var b := a * a;
    DotScaled(L, a, b, i, j, |L|);
    ShrinkTimesCount(b, count as real, Product(L, i, j));
  }

  lemma RaisedDiagonal(R: Matrix, k: nat)
    requires LowerTriangular(R) && k < |R| && R[k][k] >= 0.0
    requires Product(RaisedFrom(R, 0), k, k) == Product(R, k, k)
    ensures R[k][k] >= EPS
  {
    var V, d := Max(EPS, R[k][k]), R[k][k];
    DotDiffers(RaisedFrom(R, 0), R, k, k, k, |R|, V, V, d, d);
    if V > d {
      SquareLess(d, V);
    }
  }

  lemma CancelCount(n: real, a: real, b: real)
    requires n > 0.0 && n * a == n * b
    ensures a == b
  {
  }

  /** The update is the exact running covariance precisely when it clamps nothing. */
  lemma AccumulatesIff(L: Matrix, sample: Vector, count: nat, sqrt: real -> real)
    requires IsSqrt(sqrt) && Nonnegative(L) && |sample| == |L| && count > 0
    ensures Accumulates(L, UpdatedFactor(L, sample, count, sqrt), sample, count) <==> NothingClamped(L, count, sqrt)
  {
    if NothingClamped(L, count, sqrt) {
      ExactWhenUnclamped(L, sample, count, sqrt);
    }
    if Accumulates(L, UpdatedFactor(L, sample, count, sqrt), sample, count) {
      forall k | 0 <= k < |L|
        ensures L[k][k] * Shrink(count, sqrt) >= EPS
      {
        hide UpdatedFactor;
        NotClampedWhenExact(L, sample, count, sqrt, k);
      }
    }
  }

  lemma ExactWhenUnclamped(L: Matrix, sample: Vector, count: nat, sqrt: real -> real)
    requires IsSqrt(sqrt) && Nonnegative(L) && |sample| == |L| && count > 0 && NothingClamped(L, count, sqrt)
    ensures Accumulates(L, UpdatedFactor(L, sample, count, sqrt), sample, count)
  {
    var R := Scaled(L, Shrink(count, sqrt));
    ScaledLower(L, Shrink(count, sqrt));
    UnclampedIsScaled(R);
    forall i, j | 0 <= i < |L| && 0 <= j < |L|
      ensures AccumulatesAt(L, UpdatedFactor(L, sample, count, sqrt), sample, count, i, j)
    {
      hide Product, RaisedFrom, UpdatedFactor, Scaled, NothingClamped, Shrink, IsSqrt, Nonnegative;
      ExactEntry(L, sample, count, sqrt, i, j);
    }
  }

  lemma ExactEntry(L: Matrix, sample: Vector, count: nat, sqrt: real -> real, i: nat, j: nat)
    requires IsSqrt(sqrt) && LowerTriangular(L) && |sample| == |L| && count > 0 && i < |L| && j < |L|
    requires RaisedFrom(Scaled(L, Shrink(count, sqrt)), 0) == Scaled(L, Shrink(count, sqrt))
    ensures AccumulatesAt(L, UpdatedFactor(L, sample, count, sqrt), sample, count, i, j)
  {
    hide Product, RaisedFrom, UpdatedFactor, Scaled, Shrink, IsSqrt;
    FactorIdentity(L, sample, count, sqrt, i, j);
    ScaledProduct(L, count, sqrt, i, j);
  }

  lemma NotClampedWhenExact(L: Matrix, sample: Vector, count: nat, sqrt: real -> real, k: nat)
    requires IsSqrt(sqrt) && Nonnegative(L) && |sample| == |L| && count > 0 && k < |L|
    requires AccumulatesAt(L, UpdatedFactor(L, sample, count, sqrt), sample, count, k, k)
    ensures L[k][k] * Shrink(count, sqrt) >= EPS
  {
    var R, a := Scaled(L, Shrink(count, sqrt)), Shrink(count, sqrt);
    ScaledLower(L, a);
    ShrinkSquare(count, sqrt);
    NonnegativeProduct(L[k][k], a);
    SameProduct(L, sample, count, sqrt, k);
    hide Product, RaisedFrom, UpdatedFactor, Shrink, IsSqrt;
    RaisedDiagonal(R, k);
  }

  lemma NonnegativeProduct(a: real, b: real)
    requires a >= 0.0 && b >= 0.0
    ensures a * b >= 0.0
  {
  }

  lemma SameProduct(L: Matrix, sample: Vector, count: nat, sqrt: real -> real, k: nat)
    requires IsSqrt(sqrt) && LowerTriangular(L) && |sample| == |L| && count > 0 && k < |L|
    requires AccumulatesAt(L, UpdatedFactor(L, sample, count, sqrt), sample, count, k, k)
    ensures var R := Scaled(L, Shrink(count, sqrt));
            Product(RaisedFrom(R, 0), k, k) == Product(R, k, k)
  {
    hide Product, RaisedFrom, UpdatedFactor, Scaled, Shrink, IsSqrt;
    var R := Scaled(L, Shrink(count, sqrt));
    FactorIdentity(L, sample, count, sqrt, k, k);
    ScaledProduct(L, count, sqrt, k, k);
    CancelCount(count as real, Product(RaisedFrom(R, 0), k, k), Product(R, k, k));
  }

  /** Whatever is clamped, the new factor is lower triangular, and its diagonal is at least EPS and at least the shrunk one. */
  lemma FactorStaysPositive(L: Matrix, sample: Vector, count: nat, sqrt: real -> real)
    requires IsSqrt(sqrt) && LowerTriangular(L) && |sample| == |L| && count > 0
    ensures var L' := UpdatedFactor(L, sample, count, sqrt);
            && LowerTriangular(L')
            && forall k | 0 <= k < |L| :: L'[k][k] >= EPS && L'[k][k] >= Scaled(L, Shrink(count, sqrt))[k][k]
  {
    var R := Scaled(L, Shrink(count, sqrt));
    ScaledLower(L, Shrink(count, sqrt));
    RootNonzero(count, sqrt);
    UpdateLower(R, Divided(sample, sqrt(count as real)), 0, sqrt);
    hide Scaled, Divided, UpdateFrom, Shrink, IsSqrt, RaisedFrom;
  }

  // ---------------------------------------------------------------- all samples

  ghost function AfterAll(L: Matrix, count: nat, samples: seq<Vector>, sqrt: real -> real): (L': Matrix)
    requires IsSqrt(sqrt) && Square(L, |L|) && forall s | s in samples :: |s| == |L|
    ensures |L'| == |L| && Square(L', |L|)
  {
    if samples == [] then L else
      var n := |samples| - 1;
      UpdatedFactor(AfterAll(L, count, samples[..n], sqrt), samples[n], count + n + 1, sqrt)
  }

  /** Entry (i, j) of the sum of the samples' outer products. */
  function BatchSum(samples: seq<Vector>, i: nat, j: nat): real
    requires forall s | s in samples :: i < |s| && j < |s|
  {
    if samples == [] then 0.0 else
      var n := |samples| - 1;
      BatchSum(samples[..n], i, j) + samples[n][i] * samples[n][j]
  }

  function Diagonal(range: Vector): (L: Matrix)
    ensures |L| == |range| && Square(L, |range|)
  {
    seq(|range|, i requires 0 <= i < |range| => seq(|range|, j requires 0 <= j < |range| => if i == j then range[i] else 0.0))
  }

  /** The initial ranges are large enough for the number of samples to come. */
  ghost predicate Ample(range: Vector, count: nat, total: nat) {
    forall k | 0 <= k < |range| :: range[k] > 0.0 && count as real * (range[k] * range[k]) >= total as real * (EPS * EPS)
  }

  /** Entry (i, j) of the squared initial ranges. */
  function RangeSquare(range: Vector, i: nat, j: nat): real
    requires i < |range|
  {
    if i == j then range[i] * range[i] else 0.0
  }

  /** What is kept: count times the factor's square is the batch sum, and the diagonal never loses weight. */
  ghost predicate Tracks(L: Matrix, range: Vector, count: nat, samples: seq<Vector>) {
    && Nonnegative(L) && |L| == |range|
    && (forall s | s in samples :: |s| == |range|)
    && (forall i, j | 0 <= i < |L| && 0 <= j < |L| :: SumsTo(L, range, count, samples, i, j))
    && (forall k | 0 <= k < |L| :: Weighs(L, range, count, |samples|, k))
  }

  ghost predicate SumsTo(L: Matrix, range: Vector, count: nat, samples: seq<Vector>, i: nat, j: nat)
    requires Square(L, |L|) && i < |L| == |range| && j < |L| && forall s | s in samples :: |s| == |range|
  {
    (count + |samples|) as real * Product(L, i, j)
    == count as real * RangeSquare(range, i, j) + BatchSum(samples, i, j)
  }

  ghost predicate Weighs(L: Matrix, range: Vector, count: nat, seen: nat, k: nat)
    requires Square(L, |L|) && k < |L| == |range|
  {
    (count + seen) as real * (L[k][k] * L[k][k]) >= count as real * (range[k] * range[k])
  }

  lemma NotClamped(d: real, a: real, n: real, weight: real)
    requires d >= 0.0 && a >= 0.0 && n > 0.0 && a * a == (n - 1.0) / n
    requires (n - 1.0) * (d * d) >= weight >= n * (EPS * EPS)
    ensures d * a >= EPS
  {
    var b, dd := a * a, d * d;
    ShrinkTimesCount(b, n, dd);
    OneScaled(d, d, a, b);
    var e := d * a;
    assert e * e == b * dd;
    ScaleBack(n, e * e, EPS * EPS);
    SquareAtLeast(e, EPS);
  }

  lemma ScaleBack(n: real, a: real, b: real)
    requires n > 0.0 && n * a >= n * b
    ensures a >= b
  {
  }

  /** The weight of a diagonal entry after the update is at least that before. */
  lemma KeepsWeight(d: real, d': real, a: real, n: real)
    requires d >= 0.0 && a >= 0.0 && n > 0.0 && a * a == (n - 1.0) / n && d' >= d * a
    ensures n * (d' * d') >= (n - 1.0) * (d * d)
  {
    var b, dd, e := a * a, d * d, d * a;
    ShrinkTimesCount(b, n, dd);
    OneScaled(d, d, a, b);
    assert e * e == b * dd;
    assert e >= 0.0;
    SquareGrows(e, d');
    Grows(n, e * e, d' * d');
  }

  lemma SquareGrows(e: real, d: real)
    requires 0.0 <= e <= d
    ensures e * e <= d * d
  {
  }

  lemma Grows(n: real, a: real, b: real)
    requires n > 0.0 && a <= b
    ensures n * a <= n * b
  {
  }

  lemma {:induction false} DiagonalDot(range: Vector, i: nat, j: nat, m: nat)
    requires i < |range| && j < |range| && m <= |range|
    ensures Dot(Diagonal(range), i, j, m) == if i == j < m then range[i] * range[i] else 0.0
  {
    if m > 0 {
      DiagonalDot(range, i, j, m - 1);
    }
  }

  lemma DiagonalProduct(range: Vector, i: nat, j: nat)
    requires i < |range| && j < |range|
    ensures Product(Diagonal(range), i, j) == RangeSquare(range, i, j)
  {
    DiagonalDot(range, i, j, |range|);
  }

  lemma Starts(range: Vector, count: nat)
    requires forall k | 0 <= k < |range| :: range[k] > 0.0
    ensures Tracks(Diagonal(range), range, count, [])
  {
    var L := Diagonal(range);
    forall i, j | 0 <= i < |range| && 0 <= j < |range|
      ensures SumsTo(L, range, count, [], i, j)
    {
      DiagonalProduct(range, i, j);
      hide Product, RangeSquare, Diagonal;
    }
    hide SumsTo;
  }

  lemma TracksUnclamped(L: Matrix, range: Vector, count: nat, samples: seq<Vector>, sqrt: real -> real)
    requires IsSqrt(sqrt) && Tracks(L, range, count, samples) && Ample(range, count, count + |samples| + 1)
    ensures NothingClamped(L, count + |samples| + 1, sqrt)
  {
    var total := count + |samples| + 1;
    var n := total as real;
    ShrinkSquare(total, sqrt);
    forall k | 0 <= k < |L|
      ensures L[k][k] * Shrink(total, sqrt) >= EPS
    {
      assert Weighs(L, range, count, |samples|, k);
      var d, a, weight := L[k][k], Shrink(total, sqrt), count as real * (range[k] * range[k]);
      assert (n - 1.0) * (d * d) >= weight >= n * (EPS * EPS);
      hide *;
      NotClamped(d, a, n, weight);
    }
  }

  lemma TracksNext(L: Matrix, range: Vector, count: nat, samples: seq<Vector>, sample: Vector, sqrt: real -> real)
    requires IsSqrt(sqrt) && Tracks(L, range, count, samples) && |sample| == |range|
    requires Ample(range, count, count + |samples| + 1)
    ensures Tracks(UpdatedFactor(L, sample, count + |samples| + 1, sqrt), range, count, samples + [sample])
  {
    var total := count + |samples| + 1;
    TracksUnclamped(L, range, count, samples, sqrt);
    AccumulatesIff(L, sample, total, sqrt);
    FactorStaysPositive(L, sample, total, sqrt);
    hide Dot, Product, UpdatedFactor, Diagonal, BatchSum, NothingClamped, Ample, IsSqrt, Shrink, Weighs, SumsTo;
    var L', samples' := UpdatedFactor(L, sample, total, sqrt), samples + [sample];
    forall i, j | 0 <= i < |L| && 0 <= j < |L|
      ensures SumsTo(L', range, count, samples', i, j)
    {
      hide AccumulatesAt;
      EntryNext(L, L', range, count, samples, sample, i, j);
    }
    forall k | 0 <= k < |L|
      ensures Weighs(L', range, count, |samples'|, k)
    {
      hide Tracks;
      DiagonalKeepsWeight(L, L', range, count, samples, total, sqrt, k);
    }
  }

  lemma BatchSumNext(samples: seq<Vector>, sample: Vector, i: nat, j: nat)
    requires forall s | s in samples + [sample] :: i < |s| && j < |s|
    ensures forall s | s in samples :: s in samples + [sample]
    ensures BatchSum(samples + [sample], i, j) == BatchSum(samples, i, j) + sample[i] * sample[j]
  {
  }

  lemma EntryNext(L: Matrix, L': Matrix, range: Vector, count: nat, samples: seq<Vector>, sample: Vector, i: nat, j: nat)
    requires Tracks(L, range, count, samples) && Square(L', |L|) && |L'| == |sample| == |L| && i < |L| && j < |L|
    requires AccumulatesAt(L, L', sample, count + |samples| + 1, i, j)
    ensures SumsTo(L', range, count, samples + [sample], i, j)
  {
    hide Dot, Product, RangeSquare, BatchSum;
    BatchSumNext(samples, sample, i, j);
    assert SumsTo(L, range, count, samples, i, j);
    assert (count + |samples| + 1) as real - 1.0 == (count + |samples|) as real;
  }

  lemma DiagonalKeepsWeight(L: Matrix, L': Matrix, range: Vector, count: nat, samples: seq<Vector>, total: nat,
                            sqrt: real -> real, k: nat)
    requires IsSqrt(sqrt) && Tracks(L, range, count, samples) && total == count + |samples| + 1
    requires Square(L', |L|) && k < |L| && L'[k][k] >= Scaled(L, Shrink(total, sqrt))[k][k]
    ensures Weighs(L', range, count, |samples| + 1, k)
  {
    ShrinkSquare(total, sqrt);
    assert Weighs(L, range, count, |samples|, k);
    var d, d', a, n, weight := L[k][k], L'[k][k], Shrink(total, sqrt), total as real, count as real * (range[k] * range[k]);
    assert (n - 1.0) * (d * d) >= weight;
    hide *;
    KeepsWeight(d, d', a, n);
  }

  /** After any samples the scaled square of the factor is the batch sum: the running estimate is exact. */
  lemma {:induction false} BatchCovariance(range: Vector, count: nat, samples: seq<Vector>, sqrt: real -> real)
    requires IsSqrt(sqrt) && (forall s | s in samples :: |s| == |range|) && Ample(range, count, count + |samples|)
    ensures Tracks(AfterAll(Diagonal(range), count, samples, sqrt), range, count, samples)
  {
    if samples == [] {
      Starts(range, count);
    } else {
      var n := |samples| - 1;
      AmpleBefore(range, count, count + n, count + n + 1);
      BatchCovariance(range, count, samples[..n], sqrt);
      BatchNext(range, count, samples, samples[..n], samples[n], sqrt);
    }
  }

  lemma BatchNext(range: Vector, count: nat, samples: seq<Vector>, init: seq<Vector>, last: Vector, sqrt: real -> real)
    requires IsSqrt(sqrt) && (forall s | s in samples :: |s| == |range|) && Ample(range, count, count + |samples|)
    requires samples != [] && init == samples[..|samples| - 1] && last == samples[|samples| - 1]
    requires Tracks(AfterAll(Diagonal(range), count, init, sqrt), range, count, init)
    ensures Tracks(AfterAll(Diagonal(range), count, samples, sqrt), range, count, samples)
  {
    var L := AfterAll(Diagonal(range), count, init, sqrt);
    assert init + [last] == samples;
    AfterNext(Diagonal(range), count, init, last, sqrt);
    hide AfterAll, UpdatedFactor, Tracks, Diagonal, Ample, IsSqrt;
    TracksNext(L, range, count, init, last, sqrt);
  }

  lemma AmpleBefore(range: Vector, count: nat, before: nat, total: nat)
    requires Ample(range, count, total) && before <= total
    ensures Ample(range, count, before)
  {
  }

  lemma AfterNext(L: Matrix, count: nat, samples: seq<Vector>, sample: Vector, sqrt: real -> real)
    requires IsSqrt(sqrt) && Square(L, |L|) && (forall s | s in samples :: |s| == |L|) && |sample| == |L|
    ensures AfterAll(L, count, samples + [sample], sqrt)
            == UpdatedFactor(AfterAll(L, count, samples, sqrt), sample, count + |samples| + 1, sqrt)
  {
  }

  // ------------------------------------------------------------------ 32 bits

  const UINT_RANGE: nat := 0x1_0000_0000

  /** A box of which no side vanishes against the counters. */
  const LEAST_RANGE: real := 0.0000000000001

  ghost predicate Wide(range: Vector) { forall k | 0 <= k < |range| :: range[k] >= LEAST_RANGE }

  lemma AmpleOne(c: real, r: real, t: real)
    requires c >= 1.0 && r >= LEAST_RANGE && 0.0 <= t <= UINT_RANGE as real
    ensures c * (r * r) >= t * (EPS * EPS)
  {
    SquareGrows(LEAST_RANGE, r);
    var (square, least) := (r * r, LEAST_RANGE * LEAST_RANGE);
    assert square >= least;
    assert t * (EPS * EPS) <= least;
    hide *;
    AtLeastThat(c, square, least);
  }

  lemma AtLeastThat(c: real, a: real, b: real)
    requires c >= 1.0 && a >= b >= 0.0
    ensures c * a >= b
  {
  }

  /** With counters of 32 bits that do not start from zero, ranges of at least 1e-13 are ample for every run. */
  lemma AmpleIn32Bits(range: Vector, count: nat, total: nat)
    requires 0 < count && total < UINT_RANGE && Wide(range)
    ensures Ample(range, count, total)
  {
    forall k | 0 <= k < |range|
      ensures count as real * (range[k] * range[k]) >= total as real * (EPS * EPS)
    {
      AmpleOne(count as real, range[k], total as real);
    }
  }

  /** Then no update of any run clamps anything, and the factor is the exact weighted batch covariance throughout. */
  lemma NeverClamps(range: Vector, count: nat, samples: seq<Vector>, n: nat, sqrt: real -> real)
    requires IsSqrt(sqrt) && 0 < count && count + |samples| < UINT_RANGE && Wide(range)
    requires (forall s | s in samples :: |s| == |range|) && n <= |samples|
    ensures var L := AfterAll(Diagonal(range), count, samples[..n], sqrt);
            && Tracks(L, range, count, samples[..n])
            && (n < |samples| ==> NothingClamped(L, count + n + 1, sqrt))
  {
    hide AfterAll, Diagonal, Tracks, Ample, IsSqrt, Wide, NothingClamped;
    AmpleIn32Bits(range, count, count + n);
    BatchCovariance(range, count, samples[..n], sqrt);
    if n < |samples| {
      AmpleIn32Bits(range, count, count + n + 1);
      TracksUnclamped(AfterAll(Diagonal(range), count, samples[..n], sqrt), range, count, samples[..n], sqrt);
    }
  }

  /** A counter that starts from zero is no exception to be made: its first update clamps every diagonal entry. */
  lemma ZeroCountClamps(range: Vector, sqrt: real -> real)
    requires IsSqrt(sqrt) && range != []
    ensures !NothingClamped(Diagonal(range), 1, sqrt)
  {
    var a := Shrink(1, sqrt);
    ShrinkSquare(1, sqrt);
    assert a * a == 0.0;
    ZeroSquare(a);
    assert range[0] * a == 0.0;
    assert Diagonal(range)[0][0] == range[0];
  }

  lemma ZeroSquare(a: real)
    requires a * a == 0.0
    ensures a == 0.0
  {
    if a != 0.0 {
      SquarePositive(a);
    }
  }
}
