/** The regression behind the adaption of proposal widths and temperatures (infer/adaptive.cpp), on values. */
module Regression {
  import opened RealMath
  import opened LinearAlgebra

  const INITIAL_COUNT: real := 10.0
  const TEMP_VARIANCE: real := 10.0

  /** The caps of the learned logarithm. */
  datatype Caps = Caps(min: real, max: real)

  /** A data point: the features and the response. */
  datatype Datum = Datum(x: Vec3, y: real)

  /** What is kept for one temperature. */
  datatype Moments = Moments(xx: Mat3, xy: Vec3, count: real)

  function Clamped(value: real, caps: Caps): real { Min(Max(value, caps.min), caps.max) }

  function Features(value: real, side: real, caps: Caps): Vec3 { Vec3(-Clamped(value, caps), side, 1.0) }

  function Response(accepted: bool): real { if accepted then 1.0 else 0.0 }

  function BoundRejected(caps: Caps): Vec3 { Vec3(caps.min, 0.0, 1.0) }

  function BoundAccepted(caps: Caps): Vec3 { Vec3(caps.max, 0.0, 1.0) }

  function InitialSquares(caps: Caps): Mat3 {
    var M := Sum(Scale(Outer(BoundRejected(caps)), 0.5), Scale(Outer(BoundAccepted(caps)), 0.5));
    M.(q := M.q.(b := TEMP_VARIANCE))
  }

  function InitialMoments(caps: Caps): Moments {
    Moments(InitialSquares(caps), Times(BoundAccepted(caps), 0.5), INITIAL_COUNT)
  }

  /** update: the running averages after one data point. */
  function Updated(m: Moments, d: Datum): Moments
    requires m.count >= 0.0
  {
    var count := m.count + 1.0;
    var alpha := 1.0 / count;
    Moments(Sum(Scale(m.xx, 1.0 - alpha), Scale(Outer(d.x), alpha)),
            Plus(Times(m.xy, 1.0 - alpha), Times(Times(d.x, d.y), alpha)), count)
  }

  // ------------------------------------------------------------- batch moments

  /** Ten times the initial guess and one for each data point. */
  function BatchSquares(caps: Caps, data: seq<Datum>): Mat3 {
    if data == [] then Scale(InitialSquares(caps), INITIAL_COUNT)
    else Sum(BatchSquares(caps, data[..|data| - 1]), Outer(data[|data| - 1].x))
  }

  function BatchResponses(caps: Caps, data: seq<Datum>): Vec3 {
    if data == [] then Times(Times(BoundAccepted(caps), 0.5), INITIAL_COUNT)
    else Plus(BatchResponses(caps, data[..|data| - 1]), Times(data[|data| - 1].x, data[|data| - 1].y))
  }

  function AfterAll(caps: Caps, data: seq<Datum>): (m: Moments)
    ensures m.count == INITIAL_COUNT + |data| as real
  {
    if data == [] then InitialMoments(caps) else Updated(AfterAll(caps, data[..|data| - 1]), data[|data| - 1])
  }

  ghost predicate IsBatch(m: Moments, caps: Caps, data: seq<Datum>) {
    && m.count == INITIAL_COUNT + |data| as real
    && Scale(m.xx, m.count) == BatchSquares(caps, data)
    && Times(m.xy, m.count) == BatchResponses(caps, data)
  }

  /** One entry of a running average. */
  lemma Mixed(n: real, alpha: real, entry: real, new_: real)
    requires n > 0.0 && alpha == 1.0 / n
    ensures (entry * (1.0 - alpha) + new_ * alpha) * n == entry * (n - 1.0) + new_
  {
  }

  lemma MixedVector(n: real, alpha: real, u: Vec3, v: Vec3)
    requires n > 0.0 && alpha == 1.0 / n
    ensures Times(Plus(Times(u, 1.0 - alpha), Times(v, alpha)), n) == Plus(Times(u, n - 1.0), v)
  {
    Mixed(n, alpha, u.a, v.a);
    Mixed(n, alpha, u.b, v.b);
    Mixed(n, alpha, u.c, v.c);
  }

  lemma MixedMatrix(n: real, alpha: real, M: Mat3, N: Mat3)
    requires n > 0.0 && alpha == 1.0 / n
    ensures Scale(Sum(Scale(M, 1.0 - alpha), Scale(N, alpha)), n) == Sum(Scale(M, n - 1.0), N)
  {
    MixedVector(n, alpha, M.p, N.p);
    MixedVector(n, alpha, M.q, N.q);
    MixedVector(n, alpha, M.r, N.r);
    hide Times, Plus;
  }

  /** The running averages, times the count, are the batch sums. */
  lemma {:induction false} MomentsAreBatch(caps: Caps, data: seq<Datum>)
    ensures IsBatch(AfterAll(caps, data), caps, data)
  {
    hide IsBatch, Updated, InitialMoments, BatchSquares, BatchResponses;
    NoneIsBatch(caps);
    if data != [] {
      var (init, d) := (data[..|data| - 1], data[|data| - 1]);
      MomentsAreBatch(caps, init);
      NextIsBatch(AfterAll(caps, init), caps, init, d);
      assert init + [d] == data;
    }
  }

  lemma NoneIsBatch(caps: Caps)
    ensures IsBatch(InitialMoments(caps), caps, [])
  {
    hide Times, Plus, Outer, Scale, Sum, InitialSquares;
  }

  lemma NextIsBatch(m: Moments, caps: Caps, data: seq<Datum>, d: Datum)
    requires IsBatch(m, caps, data)
    ensures IsBatch(Updated(m, d), caps, data + [d])
  {
    hide Times, Plus, Outer, Scale, Sum, Updated, BatchSquares, BatchResponses;
    UpdatedTimesCount(m, d);
    BatchNext(caps, data, d);
  }

  lemma UpdatedTimesCount(m: Moments, d: Datum)
    requires m.count >= 0.0
    ensures var m' := Updated(m, d);
            && m'.count == m.count + 1.0
            && Scale(m'.xx, m'.count) == Sum(Scale(m.xx, m.count), Outer(d.x))
            && Times(m'.xy, m'.count) == Plus(Times(m.xy, m.count), Times(d.x, d.y))
  {
    var n := m.count + 1.0;
    var alpha := 1.0 / n;
    hide Times, Plus, Outer, Scale, Sum;
    MixedMatrix(n, alpha, m.xx, Outer(d.x));
    MixedVector(n, alpha, m.xy, Times(d.x, d.y));
  }

  lemma BatchNext(caps: Caps, data: seq<Datum>, d: Datum)
    ensures BatchSquares(caps, data + [d]) == Sum(BatchSquares(caps, data), Outer(d.x))
    ensures BatchResponses(caps, data + [d]) == Plus(BatchResponses(caps, data), Times(d.x, d.y))
  {
    hide Times, Plus, Outer, Scale, Sum;
    assert (data + [d])[..|data|] == data;
  }

  // ------------------------------------------------------- what update is told

  /** The arguments of one call of update. */
  datatype Call = Call(value: real, side: real, accepted: bool)

  function DatumOf(caps: Caps, call: Call): Datum {
    Datum(Features(call.value, call.side, caps), Response(call.accepted))
  }

  /** The data points that update makes of its calls. */
  function DataOf(caps: Caps, calls: seq<Call>): (data: seq<Datum>)
    ensures |data| == |calls|
  {
    seq(|calls|, i requires 0 <= i < |calls| => DatumOf(caps, calls[i]))
  }

  lemma DataNext(caps: Caps, calls: seq<Call>, call: Call)
    ensures DataOf(caps, calls + [call]) == DataOf(caps, calls) + [DatumOf(caps, call)]
  {
    hide DatumOf;
  }

  /** Plain sums over the calls: of the clamped values, the side data, their squares and their product; and over the accepted
      calls only, of the clamped values, the side data and one. */
  datatype Sums = Sums(value: real, side: real, valueValue: real, valueSide: real, sideSide: real,
                       acceptedValue: real, acceptedSide: real, accepted: real)

  function WithCall(caps: Caps, s: Sums, call: Call): Sums {
    var (v, u) := (Clamped(call.value, caps), call.side);
    var t := s.(value := s.value + v, side := s.side + u,
                valueValue := s.valueValue + v * v, valueSide := s.valueSide + v * u, sideSide := s.sideSide + u * u);
    if call.accepted
    then t.(acceptedValue := s.acceptedValue + v, acceptedSide := s.acceptedSide + u, accepted := s.accepted + 1.0)
    else t
  }

  function SumsOf(caps: Caps, calls: seq<Call>): Sums {
    if calls == [] then Sums(0.0, 0.0, 0.0, 0.0, 0.0, 0.0, 0.0, 0.0)
    else WithCall(caps, SumsOf(caps, calls[..|calls| - 1]), calls[|calls| - 1])
  }

  /** The moments, entry by entry, that these sums and the initial guess make. */
  function SquaresFrom(caps: Caps, n: nat, s: Sums): Mat3 {
    var aa := 5.0 * (caps.min * caps.min + caps.max * caps.max) + s.valueValue;
    var ac := 5.0 * (caps.min + caps.max) - s.value;
    Mat3(Vec3(aa, -s.valueSide, ac), Vec3(-s.valueSide, 100.0 + s.sideSide, s.side), Vec3(ac, s.side, 10.0 + n as real))
  }

  function ResponsesFrom(caps: Caps, s: Sums): Vec3 {
    Vec3(5.0 * caps.max - s.acceptedValue, s.acceptedSide, 5.0 + s.accepted)
  }

  lemma OuterBound(x: real)
    ensures Outer(Vec3(x, 0.0, 1.0)) == Mat3(Vec3(x * x, 0.0, x), ZERO, Vec3(x, 0.0, 1.0))
  {
  }

  lemma HalfAndHalf(u: Vec3, v: Vec3)
    ensures Times(Plus(Times(u, 0.5), Times(v, 0.5)), INITIAL_COUNT)
            == Vec3(5.0 * (u.a + v.a), 5.0 * (u.b + v.b), 5.0 * (u.c + v.c))
  {
  }

  lemma MiddleRow(k: real, variance: real, n: real)
    ensures Plus(Times(ZERO, k), Times(ZERO, k)) == ZERO
    ensures Times(Vec3(0.0, variance, 0.0), n) == Vec3(0.0, variance * n, 0.0)
  {
  }

  lemma NoSquares(caps: Caps, low: Mat3, high: Mat3)
    requires low == Outer(BoundRejected(caps)) && high == Outer(BoundAccepted(caps))
    requires low.q == high.q == ZERO
    ensures BatchSquares(caps, [])
            == Mat3(Vec3(5.0 * (low.p.a + high.p.a), 5.0 * (low.p.b + high.p.b), 5.0 * (low.p.c + high.p.c)),
                    Vec3(0.0, 100.0, 0.0),
                    Vec3(5.0 * (low.r.a + high.r.a), 5.0 * (low.r.b + high.r.b), 5.0 * (low.r.c + high.r.c)))
  {
    HalfAndHalf(low.p, high.p);
    HalfAndHalf(low.r, high.r);
    MiddleRow(0.5, TEMP_VARIANCE, INITIAL_COUNT);
    hide Outer, Times, Plus, BoundAccepted, BoundRejected;
  }

  lemma NoResponses(caps: Caps)
    ensures BatchResponses(caps, []) == Vec3(5.0 * caps.max, 0.0, 5.0)
  {
  }

  lemma NoSums(caps: Caps)
    ensures BatchSquares(caps, []) == SquaresFrom(caps, 0, SumsOf(caps, []))
    ensures BatchResponses(caps, []) == ResponsesFrom(caps, SumsOf(caps, []))
  {
    hide BatchSquares, BatchResponses, Outer, InitialSquares, WithCall, Inner, Sum, Scale, Times, Plus, Apply, Form, Loss;
    NoResponses(caps);
    OuterBound(caps.min);
    OuterBound(caps.max);
    var (low, high) := (Outer(BoundRejected(caps)), Outer(BoundAccepted(caps)));
    NoSquares(caps, low, high);
    var (a, b) := (caps.min * caps.min, caps.max * caps.max);
    assert low.p.a == a && high.p.a == b;
    SquaresOfNothing(caps, a, b);
  }

  lemma SquaresOfNothing(caps: Caps, a: real, b: real)
    requires a == caps.min * caps.min && b == caps.max * caps.max
    ensures SquaresFrom(caps, 0, SumsOf(caps, []))
            == Mat3(Vec3(5.0 * (a + b), 0.0, 5.0 * (caps.min + caps.max)), Vec3(0.0, 100.0, 0.0),
                    Vec3(5.0 * (caps.min + caps.max), 0.0, 10.0))
    ensures ResponsesFrom(caps, SumsOf(caps, [])) == Vec3(5.0 * caps.max, 0.0, 5.0)
  {
  }

  lemma OneMoreSum(caps: Caps, n: nat, s: Sums, call: Call)
    ensures var (d, t) := (DatumOf(caps, call), WithCall(caps, s, call));
            && Sum(SquaresFrom(caps, n, s), Outer(d.x)) == SquaresFrom(caps, n + 1, t)
            && Plus(ResponsesFrom(caps, s), Times(d.x, d.y)) == ResponsesFrom(caps, t)
  {
    hide Clamped;
  }

  lemma {:induction false} BatchIsSums(caps: Caps, calls: seq<Call>)
    ensures BatchSquares(caps, DataOf(caps, calls)) == SquaresFrom(caps, |calls|, SumsOf(caps, calls))
    ensures BatchResponses(caps, DataOf(caps, calls)) == ResponsesFrom(caps, SumsOf(caps, calls))
  {
    hide BatchSquares, BatchResponses, SquaresFrom, ResponsesFrom, Sum, Plus, Times, Outer, DatumOf, WithCall, DataOf;
    if calls == [] {
      NoSums(caps);
      assert DataOf(caps, calls) == [];
    } else {
      var (init, call) := (calls[..|calls| - 1], calls[|calls| - 1]);
      BatchIsSums(caps, init);
      assert init + [call] == calls;
      DataNext(caps, init, call);
      BatchNext(caps, DataOf(caps, init), DatumOf(caps, call));
      OneMoreSum(caps, |init|, SumsOf(caps, init), call);
    }
  }

  /** Whatever update is told, its averages times their count are, entry by entry, plain sums over the arguments: the accept
      rate is fitted to the accepted calls, over minus the clamped value, the side data and one. */
  lemma MomentsAreSums(caps: Caps, calls: seq<Call>)
    ensures var (m, s) := (AfterAll(caps, DataOf(caps, calls)), SumsOf(caps, calls));
            && m.count == 10.0 + |calls| as real
            && Scale(m.xx, m.count) == SquaresFrom(caps, |calls|, s)
            && Times(m.xy, m.count) == ResponsesFrom(caps, s)
  {
    MomentsAreBatch(caps, DataOf(caps, calls));
    BatchIsSums(caps, calls);
    hide Scale, Times, BatchSquares, BatchResponses, SquaresFrom, ResponsesFrom, SumsOf, AfterAll;
  }

  lemma CallsObserved(caps: Caps, calls: seq<Call>)
    ensures AllObserved(DataOf(caps, calls), caps)
  {
    var data := DataOf(caps, calls);
    forall d | d in data
      ensures Observed(d.x, caps)
    {
      var i :| 0 <= i < |data| && data[i] == d;
      assert d.x == DatumOf(caps, calls[i]).x;
    }
  }

  /** Between the caps, clamping takes the nearest number. */
  lemma ClampedIsNearest(value: real, caps: Caps, other: real)
    requires caps.min <= other <= caps.max
    ensures caps.min <= Clamped(value, caps) <= caps.max
    ensures Distance(Clamped(value, caps), value) <= Distance(other, value)
  {
  }

  // -------------------------------------------------------- the form is definite

  /** The sum, over the data, of the products of the projections on u and v. */
  function Projected(data: seq<Datum>, u: Vec3, v: Vec3): real {
    if data == [] then 0.0 else
      var x := data[|data| - 1].x;
      Projected(data[..|data| - 1], u, v) + Inner(x, u) * Inner(x, v)
  }

  const SIDE := Vec3(0.0, 1.0, 0.0)

  /** The variance put on the diagonal is one more data point. */
  lemma InitialIsSum(caps: Caps)
    ensures InitialSquares(caps)
            == Sum(Sum(Scale(Outer(BoundRejected(caps)), 0.5), Scale(Outer(BoundAccepted(caps)), 0.5)),
                   Scale(Outer(SIDE), TEMP_VARIANCE))
  {
    var M := Sum(Scale(Outer(BoundRejected(caps)), 0.5), Scale(Outer(BoundAccepted(caps)), 0.5));
    hide Outer, Times;
    NoSide(BoundRejected(caps));
    NoSide(BoundAccepted(caps));
    SideOnly();
    hide Scale, BoundRejected, BoundAccepted;
    assert M.q == ZERO;
    hide Sum, Plus;
    SetMiddle(M, TEMP_VARIANCE);
  }

  lemma SetMiddle(M: Mat3, variance: real)
    requires M.q == ZERO
    ensures M.(q := M.q.(b := variance)) == Sum(M, Mat3(ZERO, Vec3(0.0, variance, 0.0), ZERO))
  {
  }

  lemma NoSide(x: Vec3)
    requires x.b == 0.0
    ensures Scale(Outer(x), 0.5).q == ZERO
  {
  }

  lemma SideOnly()
    ensures Scale(Outer(SIDE), TEMP_VARIANCE) == Mat3(ZERO, Vec3(0.0, TEMP_VARIANCE, 0.0), ZERO)
  {
  }

  lemma InitialForm(caps: Caps, u: Vec3, v: Vec3, a: real, b: real, c: real)
    requires a == Form(Outer(BoundRejected(caps)), u, v) && b == Form(Outer(BoundAccepted(caps)), u, v)
    requires c == Form(Outer(SIDE), u, v)
    ensures Form(InitialSquares(caps), u, v) == 0.5 * a + 0.5 * b + TEMP_VARIANCE * c
  {
    var (rejected, accepted) := (Outer(BoundRejected(caps)), Outer(BoundAccepted(caps)));
    InitialIsSum(caps);
    hide Form, Inner, Sum, Scale, Outer, InitialSquares, BoundRejected, BoundAccepted;
    FormScale(rejected, 0.5, u, v);
    FormScale(accepted, 0.5, u, v);
    FormScale(Outer(SIDE), TEMP_VARIANCE, u, v);
    FormSum(Sum(Scale(rejected, 0.5), Scale(accepted, 0.5)), Scale(Outer(SIDE), TEMP_VARIANCE), u, v);
    FormSum(Scale(rejected, 0.5), Scale(accepted, 0.5), u, v);
  }

  lemma {:induction false} BatchForm(caps: Caps, data: seq<Datum>, u: Vec3, v: Vec3)
    ensures Form(BatchSquares(caps, data), u, v)
            == INITIAL_COUNT * Form(InitialSquares(caps), u, v) + Projected(data, u, v)
  {
    hide Form, Inner, InitialSquares, Sum, Scale, Outer;
    if data == [] {
      FormScale(InitialSquares(caps), INITIAL_COUNT, u, v);
    } else {
      var (init, d) := (data[..|data| - 1], data[|data| - 1]);
      BatchForm(caps, init, u, v);
      FormSum(BatchSquares(caps, init), Outer(d.x), u, v);
      FormOuter(d.x, u, v);
    }
  }

  /** What update makes of the values it is given. */
  ghost predicate Observed(x: Vec3, caps: Caps) {
    exists value: real, side: real :: x == Features(value, side, caps)
  }

  ghost predicate AllObserved(data: seq<Datum>, caps: Caps) { forall d | d in data :: Observed(d.x, caps) }

  /** The caps, or one data point with them, tell the slope from the bias. */
  predicate Informative(caps: Caps, some: bool) { caps.min != caps.max || (caps.min != 0.0 && some) }

  lemma InitialFormSquares(caps: Caps, v: Vec3)
    ensures Form(InitialSquares(caps), v, v)
            == 0.5 * SquareOf(Inner(BoundRejected(caps), v)) + 0.5 * SquareOf(Inner(BoundAccepted(caps), v))
               + TEMP_VARIANCE * SquareOf(v.b)
  {
    hide Form, Inner, InitialSquares, BoundAccepted, BoundRejected, SquareOf, Outer;
    SideInner(v);
    var (low, high) := (BoundRejected(caps), BoundAccepted(caps));
    FormOuterSquare(low, v);
    FormOuterSquare(high, v);
    FormOuterSquare(SIDE, v);
    InitialForm(caps, v, v, SquareOf(Inner(low, v)), SquareOf(Inner(high, v)), SquareOf(v.b));
  }

  lemma SideInner(v: Vec3)
    ensures Inner(SIDE, v) == v.b
  {
  }

  lemma FormOuterSquare(x: Vec3, v: Vec3)
    ensures Form(Outer(x), v, v) == SquareOf(Inner(x, v))
  {
    hide Form, Inner;
    FormOuter(x, v, v);
  }

  lemma {:induction false} ProjectedAtLeast(data: seq<Datum>, v: Vec3)
    ensures Projected(data, v, v) >= 0.0
    ensures data != [] ==> Projected(data, v, v) >= SquareOf(Inner(data[|data| - 1].x, v))
  {
    if data != [] {
      ProjectedAtLeast(data[..|data| - 1], v);
      assert SquareOf(Inner(data[|data| - 1].x, v)) >= 0.0;
      hide Inner;
    }
  }

  /** A vector on which nothing seen so far projects is zero. */
  lemma NothingHidden(caps: Caps, x: Vec3, some: bool, v: Vec3)
    requires Informative(caps, some) && (some ==> Observed(x, caps) && Inner(x, v) == 0.0)
    requires Inner(BoundRejected(caps), v) == 0.0 && Inner(BoundAccepted(caps), v) == 0.0 && v.b == 0.0
    ensures v == ZERO
  {
    var (low, high) := (caps.min, caps.max);
    assert low * v.a + v.c == 0.0 && high * v.a + v.c == 0.0;
    if low != high {
      SlopeZero(low, high, v.a, v.c);
    } else {
      var value, side :| x == Features(value, side, caps);
      assert x.a == -low && x.c == 1.0;
      SlopeZero(low, -low, v.a, v.c);
    }
  }

  lemma SlopeZero(i: real, j: real, a: real, c: real)
    requires i != j && i * a + c == 0.0 && j * a + c == 0.0
    ensures a == 0.0 && c == 0.0
  {
  }

  lemma BatchDefinite(caps: Caps, data: seq<Datum>)
    requires AllObserved(data, caps) && Informative(caps, data != [])
    ensures PositiveDefinite(BatchSquares(caps, data))
  {
    var some := data != [];
    forall v: Vec3 | v != ZERO
      ensures Form(BatchSquares(caps, data), v, v) > 0.0
    {
      var x := if some then data[|data| - 1].x else ZERO;
      var (low, high) := (Inner(BoundRejected(caps), v), Inner(BoundAccepted(caps), v));
      if low == 0.0 && high == 0.0 && v.b == 0.0 && (some ==> Inner(x, v) == 0.0) {
        NothingHidden(caps, x, some, v);
      }
      BatchForm(caps, data, v, v);
      InitialFormSquares(caps, v);
      ProjectedAtLeast(data, v);
      hide Form, Inner, BatchSquares, InitialSquares, Projected, Informative;
      SquaresPositive(low, high, v.b, if some then Inner(x, v) else 0.0, Projected(data, v, v));
    }
  }

  lemma SquaresPositive(a: real, b: real, c: real, d: real, rest: real)
    requires a != 0.0 || b != 0.0 || c != 0.0 || d != 0.0
    requires rest >= 0.0 && (d != 0.0 ==> rest >= SquareOf(d))
    ensures INITIAL_COUNT * (0.5 * SquareOf(a) + 0.5 * SquareOf(b) + TEMP_VARIANCE * SquareOf(c)) + rest > 0.0
  {
    hide SquareOf;
    if a != 0.0 {
      SquarePositive(a);
    } else if b != 0.0 {
      SquarePositive(b);
    } else if c != 0.0 {
      SquarePositive(c);
    } else {
      SquarePositive(d);
    }
  }

  lemma ScaledDefinite(M: Mat3, n: real)
    requires n > 0.0 && PositiveDefinite(Scale(M, n))
    ensures PositiveDefinite(M)
  {
    forall v: Vec3 | v != ZERO
      ensures Form(M, v, v) > 0.0
    {
      FormScale(M, n, v, v);
      var (form, scaled) := (Form(M, v, v), Form(Scale(M, n), v, v));
      hide *;
      PositiveFactor(n, form, scaled);
    }
  }

  lemma PositiveFactor(n: real, a: real, b: real)
    requires n > 0.0 && b == n * a && b > 0.0
    ensures a > 0.0
  {
  }

  /** The direction that nothing seen projects on when the caps coincide. */
  lemma {:induction false} BatchNull(caps: Caps, data: seq<Datum>, v: Vec3)
    requires AllObserved(data, caps) && !Informative(caps, data != []) && v == Vec3(1.0, 0.0, -caps.min)
    ensures Apply(BatchSquares(caps, data), v) == ZERO
  {
    hide Apply, Sum, Outer, Times, Inner, InitialSquares, Scale;
    if data == [] {
      InitialNull(caps, v);
    } else {
      var (init, d) := (data[..|data| - 1], data[|data| - 1]);
      BatchNull(caps, init, v);
      assert Observed(d.x, caps);
      ObservedNull(d.x, caps, v);
      ApplySum(BatchSquares(caps, init), Outer(d.x), v);
      ApplyOuter(d.x, v);
      TimesZero(d.x);
    }
  }

  lemma ObservedNull(x: Vec3, caps: Caps, v: Vec3)
    requires Observed(x, caps) && caps.min == caps.max == 0.0 && v == Vec3(1.0, 0.0, 0.0)
    ensures Inner(x, v) == 0.0
  {
  }

  lemma NullInner(caps: Caps, v: Vec3)
    requires caps.min == caps.max && v == Vec3(1.0, 0.0, -caps.min)
    ensures BoundAccepted(caps) == BoundRejected(caps) && Inner(BoundRejected(caps), v) == 0.0
  {
  }

  lemma InitialNull(caps: Caps, v: Vec3)
    requires caps.min == caps.max && v == Vec3(1.0, 0.0, -caps.min)
    ensures Apply(BatchSquares(caps, []), v) == ZERO
  {
    hide Inner, InitialSquares, BoundRejected, BoundAccepted, Apply, Sum, Scale, Outer;
    var x := BoundRejected(caps);
    NullInner(caps, v);
    SideInner(v);
    InitialIsSum(caps);
    OuterNull(x, 0.5, v);
    OuterNull(SIDE, TEMP_VARIANCE, v);
    SumNull(Scale(Outer(x), 0.5), Scale(Outer(x), 0.5), v);
    SumNull(Sum(Scale(Outer(x), 0.5), Scale(Outer(x), 0.5)), Scale(Outer(SIDE), TEMP_VARIANCE), v);
    ScaleNull(InitialSquares(caps), INITIAL_COUNT, v);
  }

  lemma SumNull(M: Mat3, N: Mat3, v: Vec3)
    requires Apply(M, v) == Apply(N, v) == ZERO
    ensures Apply(Sum(M, N), v) == ZERO
  {
    ApplySum(M, N, v);
    hide Apply, Sum;
  }

  lemma OuterNull(x: Vec3, k: real, v: Vec3)
    requires Inner(x, v) == 0.0
    ensures Apply(Scale(Outer(x), k), v) == ZERO
  {
    ApplyOuter(x, v);
    TimesZero(x);
    hide Apply, Outer, Inner, Scale;
    ScaleNull(Outer(x), k, v);
  }

  lemma ScaleNull(M: Mat3, k: real, v: Vec3)
    requires Apply(M, v) == ZERO
    ensures Apply(Scale(M, k), v) == ZERO
  {
    ApplyScale(M, k, v);
    hide Apply, Scale;
  }

  /** The regression has exactly one solution unless both caps are equal and, once there is data, both are zero. */
  lemma SolvableIff(m: Moments, caps: Caps, data: seq<Datum>)
    requires IsBatch(m, caps, data) && AllObserved(data, caps)
    ensures ExactlyOneSolution(m.xx, m.xy) <==> Informative(caps, data != [])
  {
    hide ExactlyOneSolution, AllObserved, BatchSquares, PositiveDefinite, Scale, Apply;
    if Informative(caps, data != []) {
      BatchDefinite(caps, data);
      ScaledDefinite(m.xx, m.count);
      DefiniteHasOne(m.xx, m.xy);
    } else {
      var v := Vec3(1.0, 0.0, -caps.min);
      BatchNull(caps, data, v);
      ApplyScale(m.xx, m.count, v);
      NullDivided(Apply(m.xx, v), m.count);
      SingularHasMore(m.xx, m.xy, v);
    }
  }

  lemma NullDivided(u: Vec3, n: real)
    requires n != 0.0 && Times(u, n) == ZERO
    ensures u == ZERO
  {
    NoFactor(u.a, n);
    NoFactor(u.b, n);
    NoFactor(u.c, n);
  }

  lemma NoFactor(a: real, n: real)
    requires n != 0.0 && a * n == 0.0
    ensures a == 0.0
  {
  }

  lemma {:induction false} StaysSymmetric(caps: Caps, data: seq<Datum>)
    ensures Symmetric(AfterAll(caps, data).xx)
  {
    hide InitialMoments, Updated, Symmetric;
    if data == [] {
      StartsSymmetric(caps);
    } else {
      StaysSymmetric(caps, data[..|data| - 1]);
      UpdateSymmetric(AfterAll(caps, data[..|data| - 1]), data[|data| - 1]);
    }
  }

  lemma StartsSymmetric(caps: Caps)
    ensures Symmetric(InitialMoments(caps).xx)
  {
    hide Outer, Scale, Symmetric, BoundRejected, BoundAccepted;
    var (low, high) := (Scale(Outer(BoundRejected(caps)), 0.5), Scale(Outer(BoundAccepted(caps)), 0.5));
    OuterSymmetric(BoundRejected(caps));
    OuterSymmetric(BoundAccepted(caps));
    ScaleSymmetric(Outer(BoundRejected(caps)), 0.5);
    ScaleSymmetric(Outer(BoundAccepted(caps)), 0.5);
    SumSymmetric(low, high);
    MiddleSymmetric(Sum(low, high), TEMP_VARIANCE);
    hide Sum;
  }

  lemma SumSymmetric(M: Mat3, N: Mat3)
    requires Symmetric(M) && Symmetric(N)
    ensures Symmetric(Sum(M, N))
  {
  }

  lemma MiddleSymmetric(M: Mat3, value: real)
    requires Symmetric(M)
    ensures Symmetric(M.(q := M.q.(b := value)))
  {
  }

  lemma UpdateSymmetric(m: Moments, d: Datum)
    requires m.count >= 0.0 && Symmetric(m.xx)
    ensures Symmetric(Updated(m, d).xx)
  {
    var alpha := 1.0 / (m.count + 1.0);
    OuterSymmetric(d.x);
    ScaleSymmetric(m.xx, 1.0 - alpha);
    ScaleSymmetric(Outer(d.x), alpha);
    hide Outer, Scale;
  }

  lemma OuterSymmetric(x: Vec3)
    ensures Symmetric(Outer(x))
  {
  }

  lemma ScaleSymmetric(M: Mat3, k: real)
    requires Symmetric(M)
    ensures Symmetric(Scale(M, k))
  {
  }

  // ----------------------------------------------------- what the solution means

  /** The squared errors of a fit: ten times those of the initial guess, that the one bound is rejected and the other
      accepted and that the side data has no weight, and those of every data point. */
  function Loss(caps: Caps, data: seq<Datum>, w: Vec3): real {
    if data == [] then
      INITIAL_COUNT * (0.5 * SquareOf(Inner(BoundRejected(caps), w)) + 0.5 * SquareOf(Inner(BoundAccepted(caps), w) - 1.0)
                       + TEMP_VARIANCE * SquareOf(w.b))
    else
      Loss(caps, data[..|data| - 1], w) + SquareOf(Inner(data[|data| - 1].x, w) - data[|data| - 1].y)
  }

  /** Half of the loss's slope at w in direction d. */
  function Slope(caps: Caps, data: seq<Datum>, w: Vec3, d: Vec3): real {
    Form(BatchSquares(caps, data), d, w) - Inner(d, BatchResponses(caps, data))
  }

  lemma SquareShift(a: real, e: real, y: real)
    ensures SquareOf(a + e - y) == SquareOf(a - y) + 2.0 * (e * a - y * e) + SquareOf(e)
  {
  }

  /** One squared error, moved in direction d. */
  lemma ErrorShift(x: Vec3, y: real, w: Vec3, d: Vec3)
    ensures SquareOf(Inner(x, Plus(w, d)) - y)
            == SquareOf(Inner(x, w) - y) + 2.0 * (Form(Outer(x), d, w) - Inner(d, Times(x, y))) + Form(Outer(x), d, d)
  {
    var (a, e) := (Inner(x, w), Inner(x, d));
    InnerPlus(x, w, d);
    InnerTimes(d, x, y);
    InnerCommutes(d, x);
    FormOuterSquare(x, d);
    FormOuter(x, d, w);
    SquareShift(a, e, y);
    hide *;
    assert Form(Outer(x), d, w) == e * a;
    assert Inner(d, Times(x, y)) == y * e;
    assert Inner(x, Plus(w, d)) - y == a + e - y;
  }

  lemma InnerCommutes(u: Vec3, v: Vec3)
    ensures Inner(u, v) == Inner(v, u)
  {
  }

  lemma LossNext(caps: Caps, data: seq<Datum>, x: Datum, w: Vec3, d: Vec3)
    requires Loss(caps, data, Plus(w, d))
             == Loss(caps, data, w) + 2.0 * Slope(caps, data, w, d) + Form(BatchSquares(caps, data), d, d)
    ensures var data' := data + [x];
            Loss(caps, data', Plus(w, d))
            == Loss(caps, data', w) + 2.0 * Slope(caps, data', w, d) + Form(BatchSquares(caps, data'), d, d)
  {
    hide Inner, Form, Plus, Times, Outer, Sum, SquareOf, BatchSquares, BatchResponses;
    LossAdds(caps, data, x, w);
    LossAdds(caps, data, x, Plus(w, d));
    SlopeAdds(caps, data, x, w, d);
    BatchNext(caps, data, x);
    FormSum(BatchSquares(caps, data), Outer(x.x), d, d);
    hide Slope, Loss;
    ErrorShift(x.x, x.y, w, d);
  }

  lemma LossAdds(caps: Caps, data: seq<Datum>, x: Datum, w: Vec3)
    ensures Loss(caps, data + [x], w) == Loss(caps, data, w) + SquareOf(Inner(x.x, w) - x.y)
  {
  }

  lemma SlopeAdds(caps: Caps, data: seq<Datum>, x: Datum, w: Vec3, d: Vec3)
    ensures Slope(caps, data + [x], w, d) == Slope(caps, data, w, d) + (Form(Outer(x.x), d, w) - Inner(d, Times(x.x, x.y)))
  {
    hide Inner, Form, Plus, Times, Outer, Sum, BatchSquares, BatchResponses;
    BatchNext(caps, data, x);
    FormSum(BatchSquares(caps, data), Outer(x.x), d, w);
    InnerPlus(d, BatchResponses(caps, data), Times(x.x, x.y));
  }

  lemma LossStarts(caps: Caps, w: Vec3, d: Vec3)
    ensures Loss(caps, [], Plus(w, d))
            == Loss(caps, [], w) + 2.0 * Slope(caps, [], w, d) + Form(BatchSquares(caps, []), d, d)
  {
    var (low, high, M) := (BoundRejected(caps), BoundAccepted(caps), InitialSquares(caps));
    hide Inner, Form, Plus, Times, Outer, Scale, SquareOf, InitialSquares, BoundRejected, BoundAccepted;
    ErrorShift(low, 0.0, w, d);
    ErrorShift(high, 1.0, w, d);
    ErrorShift(SIDE, 0.0, w, d);
    InnerTimes(d, low, 0.0);
    InnerTimes(d, high, 1.0);
    InnerTimes(d, SIDE, 0.0);
    InnerTimes(d, high, 0.5);
    InnerTimes(d, Times(high, 0.5), INITIAL_COUNT);
    SideInner(w);
    SideInner(d);
    SideInner(Plus(w, d));
    InitialForm(caps, d, w, Form(Outer(low), d, w), Form(Outer(high), d, w), Form(Outer(SIDE), d, w));
    InitialForm(caps, d, d, Form(Outer(low), d, d), Form(Outer(high), d, d), Form(Outer(SIDE), d, d));
    FormScale(M, INITIAL_COUNT, d, w);
    FormScale(M, INITIAL_COUNT, d, d);
  }

  lemma {:induction false} LossShift(caps: Caps, data: seq<Datum>, w: Vec3, d: Vec3)
    ensures Loss(caps, data, Plus(w, d))
            == Loss(caps, data, w) + 2.0 * Slope(caps, data, w, d) + Form(BatchSquares(caps, data), d, d)
  {
    hide *;
    if data == [] {
      LossStarts(caps, w, d);
    } else {
      var (init, x) := (data[..|data| - 1], data[|data| - 1]);
      LossShift(caps, init, w, d);
      LossNext(caps, init, x, w, d);
      assert init + [x] == data;
    }
  }

  /** A solution of the regression is the least-squares fit of the initial guess and all the data, and once there is
      information no other fit is as good. */
  lemma FitIsLeastSquares(m: Moments, caps: Caps, data: seq<Datum>, w: Vec3, w': Vec3)
    requires IsBatch(m, caps, data) && AllObserved(data, caps) && Solves(m.xx, m.xy, w)
    ensures Loss(caps, data, w') == Loss(caps, data, w) + Form(BatchSquares(caps, data), Minus(w', w), Minus(w', w))
    ensures Informative(caps, data != []) && w' != w ==> Loss(caps, data, w') > Loss(caps, data, w)
  {
    var d := Minus(w', w);
    PlusMinus(w, w');
    if Informative(caps, data != []) && w' != w {
      BatchDefinite(caps, data);
      MinusZero(w, w');
    }
    NoSlope(m, caps, data, w, d);
    hide Loss, Slope, Form, BatchSquares, Minus, Plus;
    LossShift(caps, data, w, d);
  }

  lemma PlusMinus(w: Vec3, w': Vec3)
    ensures Plus(w, Minus(w', w)) == w'
  {
  }

  lemma MinusZero(w: Vec3, w': Vec3)
    requires w' != w
    ensures Minus(w', w) != ZERO
  {
  }

  lemma NoSlope(m: Moments, caps: Caps, data: seq<Datum>, w: Vec3, d: Vec3)
    requires IsBatch(m, caps, data) && Solves(m.xx, m.xy, w)
    ensures Slope(caps, data, w, d) == 0.0
  {
    hide Apply, Inner, Scale, Times, BatchSquares, BatchResponses;
    ApplyScale(m.xx, m.count, w);
  }

  // ----------------------------------------------------------------- prediction

  const MIN_GRADIENT: real := 0.001

  function Gradient(w: Vec3): (r: real)
    ensures r >= MIN_GRADIENT && r >= w.a && (r == MIN_GRADIENT || r == w.a)
  {
    Max(MIN_GRADIENT, w.a)
  }

  function Intercept(w: Vec3, side: real): real { w.b * side + w.c }

  function Between(numer: real, low: real, high: real): real { Max(Min(numer, high), low) }

  /** The limits are applied before the division. */
  function ClampedQuotient(numer: real, denom: real, caps: Caps): real
    requires denom > 0.0
  {
    Between(numer, Multiple(denom, caps.min), Multiple(denom, caps.max)) / denom
  }

  /** predict: where the fitted accept rate is optimal, or as near to that as the caps allow. */
  function Predict(w: Vec3, side: real, optimalRate: real, caps: Caps): real {
    ClampedQuotient(-(optimalRate - Intercept(w, side)), Gradient(w), caps)
  }

  /** The accept rate of the fit, whose gradient is taken to be at least MIN_GRADIENT. */
  function Rate(w: Vec3, side: real, value: real): real { Falling(Intercept(w, side), Gradient(w), value) }

  function Falling(intercept: real, gradient: real, value: real): real { intercept - Multiple(gradient, value) }

  function Distance(a: real, b: real): real { if a < b then b - a else a - b }

  /** The rate is the fit's value at the features of the point, with a first weight of at least a thousandth. */
  lemma RateIsFit(w: Vec3, side: real, value: real)
    ensures Rate(w, side, value) == Inner(Vec3(if w.a >= 0.001 then w.a else 0.001, w.b, w.c), Vec3(-value, side, 1.0))
  {
  }

  lemma MultipleOrdered(k: real, a: real, b: real)
    requires k > 0.0
    ensures a <= b <==> Multiple(k, a) <= Multiple(k, b)
  {
  }

  lemma MultipleOfQuotient(a: real, k: real)
    requires k != 0.0
    ensures Multiple(k, a / k) == a
  {
  }

  lemma BetweenIsNearest(numer: real, low: real, high: real, other: real)
    requires low <= other <= high
    ensures var best := Between(numer, low, high);
            low <= best <= high && Distance(best, numer) <= Distance(other, numer)
  {
  }

  /** The clamped quotient is within the caps, and no other number within them has its multiple nearer to the numerator. */
  lemma QuotientIsBest(numer: real, denom: real, caps: Caps, value: real)
    requires denom > 0.0 && caps.min <= value <= caps.max
    ensures var q := ClampedQuotient(numer, denom, caps);
            && caps.min <= q <= caps.max
            && Distance(Multiple(denom, q), numer) <= Distance(Multiple(denom, value), numer)
  {
    hide Between, Multiple, Distance;
    var (low, high, q) := (Multiple(denom, caps.min), Multiple(denom, caps.max), ClampedQuotient(numer, denom, caps));
    MultipleOrdered(denom, caps.min, value);
    MultipleOrdered(denom, value, caps.max);
    BetweenIsNearest(numer, low, high, Multiple(denom, value));
    MultipleOfQuotient(Between(numer, low, high), denom);
    hide ClampedQuotient;
    MultipleOrdered(denom, caps.min, q);
    MultipleOrdered(denom, q, caps.max);
  }

  /** The prediction respects the caps and no other value within them brings the fitted rate nearer to the optimum. */
  lemma PredictIsBest(w: Vec3, side: real, optimalRate: real, caps: Caps, value: real)
    requires caps.min <= value <= caps.max
    ensures var v := Predict(w, side, optimalRate, caps);
            && caps.min <= v <= caps.max
            && Distance(Rate(w, side, v), optimalRate) <= Distance(Rate(w, side, value), optimalRate)
  {
    var (intercept, gradient) := (Intercept(w, side), Gradient(w));
    hide Intercept, Gradient, ClampedQuotient, Multiple;
    QuotientIsBest(-(optimalRate - intercept), gradient, caps, value);
  }
}
