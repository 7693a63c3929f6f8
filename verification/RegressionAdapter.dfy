/** The adapters of proposal widths and temperatures as objects, and the temperature ladder (infer/adaptive.cpp). */
module RegressionAdapters {
  import opened RealMath
  import opened LinearAlgebra
  import opened Regression
  import opened Stacks

  /** Eigen's solver: it finds a solution where there is one. */
  ghost predicate IsSolver(solve: (Mat3, Vec3) -> Vec3) {
    forall M: Mat3, v: Vec3 | exists w: Vec3 :: Solves(M, v, w) :: Solves(M, v, solve(M, v))
  }

  ghost predicate IsLog(log: real -> real, exp: real -> real) { forall x: real :: log(exp(x)) == x }

  // ------------------------------------------------------------------ the ladder

  /** The logarithm of the inverse temperature on rung i. */
  function LogBeta(weights: seq<Vec3>, optimalRate: real, caps: Caps, i: nat): real
    requires i <= |weights|
  {
    if i == 0 then 0.0 else
      var below := LogBeta(weights, optimalRate, caps, i - 1);
      below - Predict(weights[i - 1], below, optimalRate, caps)
  }

  /** The stack that starts at `cold` is as computeBetaStack leaves it. */
  ghost predicate Computed(values: seq<real>, cold: nat, rungs: nat, weights: seq<Vec3>, optimalRate: real, caps: Caps,
                           exp: real -> real)
    requires cold + rungs <= |values| && rungs <= |weights|
  {
    forall i | 1 <= i < rungs :: values[cold + i] == exp(LogBeta(weights, optimalRate, caps, i))
  }

  /** One rung is between exp(-max) and exp(-min) times the rung below it. */
  ghost predicate Rung(below: real, above: real, caps: Caps, exp: real -> real) {
    above > 0.0 && exp(-caps.max) * below <= above <= exp(-caps.min) * below
  }

  ghost predicate RungAt(values: seq<real>, cold: nat, i: nat, caps: Caps, exp: real -> real)
    requires 1 <= i && cold + i < |values|
  {
    Rung(values[cold + i - 1], values[cold + i], caps, exp)
  }

  ghost predicate Ladder(values: seq<real>, cold: nat, rungs: nat, caps: Caps, exp: real -> real)
    requires cold + rungs <= |values| && rungs > 0
  {
    values[cold] == 1.0 && forall i | 1 <= i < rungs :: RungAt(values, cold, i, caps, exp)
  }

  lemma FactorBetween(a: real, low: real, high: real, below: real)
    requires low <= a <= high && below > 0.0
    ensures low * below <= a * below <= high * below
  {
  }

  lemma NextRung(below: real, step: real, caps: Caps, exp: real -> real)
    requires IsExp(exp) && caps.min <= step <= caps.max
    ensures Rung(exp(below), exp(below - step), caps, exp)
  {
    hide IsExp;
    ExpSum(exp, -step, below);
    ExpPositive(exp, below);
    ExpPositive(exp, below - step);
    ExpGrows(exp, -caps.max, -step);
    ExpGrows(exp, -step, -caps.min);
    assert below - step == -step + below;
    FactorBetween(exp(-step), exp(-caps.max), exp(-caps.min), exp(below));
  }

  /** Whatever the weights, the computed stack is a ladder. */
  lemma ComputedIsLadder(values: seq<real>, cold: nat, rungs: nat, weights: seq<Vec3>, optimalRate: real, caps: Caps,
                         exp: real -> real)
    requires IsExp(exp) && caps.min <= caps.max && cold + rungs <= |values| && 0 < rungs <= |weights|
    requires values[cold] == 1.0 && Computed(values, cold, rungs, weights, optimalRate, caps, exp)
    ensures Ladder(values, cold, rungs, caps, exp)
  {
    hide IsExp, Predict, Rung;
    ExpZero(exp);
    forall i | 1 <= i < rungs
      ensures RungAt(values, cold, i, caps, exp)
    {
      var below := LogBeta(weights, optimalRate, caps, i - 1);
      PredictIsBest(weights[i - 1], below, optimalRate, caps, caps.min);
      var step := Predict(weights[i - 1], below, optimalRate, caps);
      assert values[cold + i - 1] == exp(below);
      assert LogBeta(weights, optimalRate, caps, i) == below - step;
      NextRung(below, step, caps, exp);
    }
  }

  lemma OnesAreLadder(values: seq<real>, cold: nat, rungs: nat, caps: Caps, exp: real -> real)
    requires IsExp(exp) && caps.min <= 0.0 <= caps.max && cold + rungs <= |values| && rungs > 0
    requires forall i | cold <= i < cold + rungs :: values[i] == 1.0
    ensures Ladder(values, cold, rungs, caps, exp)
  {
    ExpAroundOne(caps, exp);
    hide IsExp;
  }

  lemma ExpAroundOne(caps: Caps, exp: real -> real)
    requires IsExp(exp) && caps.min <= 0.0 <= caps.max
    ensures exp(-caps.max) <= 1.0 <= exp(-caps.min)
  {
  }

  /** With a least logarithmic step of zero the inverse temperatures fall from 1 and stay positive. */
  lemma {:induction false} LadderFalls(values: seq<real>, cold: nat, rungs: nat, caps: Caps, exp: real -> real, i: nat, j: nat)
    requires IsExp(exp) && caps.min == 0.0 && cold + rungs <= |values| && rungs > 0
    requires Ladder(values, cold, rungs, caps, exp) && i <= j < rungs
    ensures 0.0 < values[cold + j] <= values[cold + i] <= 1.0
  {
    if j > 0 {
      assert RungAt(values, cold, j, caps, exp);
      if i < j {
        LadderFalls(values, cold, rungs, caps, exp, i, j - 1);
      } else {
        LadderFalls(values, cold, rungs, caps, exp, j - 1, j - 1);
      }
    }
  }

  /** What betaUpdate derives from two neighbouring rungs is the step that the ladder was built with, so the caps do not
      change it. */
  lemma UpdateSeesPrediction(values: seq<real>, cold: nat, rungs: nat, weights: seq<Vec3>, optimalRate: real, caps: Caps,
                             exp: real -> real, log: real -> real, i: nat)
    requires IsExp(exp) && IsLog(log, exp) && caps.min <= caps.max && cold + rungs <= |values| && rungs <= |weights|
    requires i + 1 < rungs && values[cold] == 1.0 && Computed(values, cold, rungs, weights, optimalRate, caps, exp)
    ensures var step := log(values[cold + i]) - log(values[cold + i + 1]);
            && log(values[cold + i]) == LogBeta(weights, optimalRate, caps, i)
            && step == Predict(weights[i], LogBeta(weights, optimalRate, caps, i), optimalRate, caps)
            && Clamped(step, caps) == step
  {
    hide IsExp, Predict;
    ExpZero(exp);
    var below := LogBeta(weights, optimalRate, caps, i);
    assert values[cold + i] == exp(below);
    assert values[cold + (i + 1)] == exp(LogBeta(weights, optimalRate, caps, i + 1));
    PredictIsBest(weights[i], below, optimalRate, caps, caps.min);
  }

  // --------------------------------------------------------------------- the object

  /** What one temperature has learned: the moments of its data, and weights that solve the regression once there is any;
      before that they are the initial moments themselves. */
  ghost predicate Fitted(m: Moments, weight: Vec3, calls: seq<Call>, caps: Caps, solve: (Mat3, Vec3) -> Vec3) {
    && m == AfterAll(caps, DataOf(caps, calls))
    && weight == if calls == [] then m.xy else solve(m.xx, m.xy)
  }

  lemma FittedNothing(caps: Caps, solve: (Mat3, Vec3) -> Vec3)
    ensures Fitted(InitialMoments(caps), InitialMoments(caps).xy, [], caps, solve)
  {
    hide InitialMoments;
  }

  lemma FittedNext(m: Moments, weight: Vec3, calls: seq<Call>, caps: Caps, solve: (Mat3, Vec3) -> Vec3, call: Call)
    requires Fitted(m, weight, calls, caps, solve)
    ensures m.count >= INITIAL_COUNT
    ensures var m' := Updated(m, DatumOf(caps, call));
            Fitted(m', solve(m'.xx, m'.xy), calls + [call], caps, solve)
  {
    hide Updated, DatumOf, DataOf, InitialMoments;
    DataNext(caps, calls, call);
    var data := DataOf(caps, calls);
    assert (data + [DatumOf(caps, call)])[..|data|] == data;
  }

  /** Hence the weights are the unique least-squares fit whenever the caps differ, or are not zero. */
  lemma FittedIsLeastSquares(m: Moments, weight: Vec3, calls: seq<Call>, caps: Caps, solve: (Mat3, Vec3) -> Vec3, other: Vec3)
    requires IsSolver(solve) && Fitted(m, weight, calls, caps, solve) && calls != []
    requires caps.min != caps.max || caps.min != 0.0
    ensures Solves(m.xx, m.xy, weight)
    ensures other != weight ==> Loss(caps, DataOf(caps, calls), other) > Loss(caps, DataOf(caps, calls), weight)
  {
    var data := DataOf(caps, calls);
    hide AfterAll, IsBatch, AllObserved, Loss, Form, Solves, DataOf;
    CallsObserved(caps, calls);
    MomentsAreBatch(caps, data);
    SolvableIff(m, caps, data);
    FitIsLeastSquares(m, caps, data, weight, other);
  }

  /** And what they are fitted to are plain sums over the arguments of the calls. */
  lemma FittedToCalls(m: Moments, weight: Vec3, calls: seq<Call>, caps: Caps, solve: (Mat3, Vec3) -> Vec3)
    requires Fitted(m, weight, calls, caps, solve)
    ensures m.count == 10.0 + |calls| as real
    ensures Scale(m.xx, m.count) == SquaresFrom(caps, |calls|, SumsOf(caps, calls))
    ensures Times(m.xy, m.count) == ResponsesFrom(caps, SumsOf(caps, calls))
  {
    MomentsAreSums(caps, calls);
  }

  /** infer/adaptive.hpp. `calls` records what each temperature has been told. */
  class RegressionAdapter {
    const nStacks: nat
    const nTemps: nat
    const caps: Caps
    const optimalRate: real
    const exp: real -> real
    const log: real -> real
    const solve: (Mat3, Vec3) -> Vec3
    var muXY: seq<Vec3>
    var muXX: seq<Mat3>
    var weight: seq<Vec3>
    var count: seq<real>
    var values: seq<real>
    ghost var calls: seq<seq<Call>>

    ghost predicate Valid()
      reads this
    {
      && IsExp(exp) && IsSolver(solve) && nTemps > 0
      && |muXY| == |muXX| == |weight| == |count| == |calls| == nTemps && |values| == nStacks * nTemps
      && forall t | 0 <= t < nTemps ::
           Fitted(Moments(muXX[t], muXY[t], count[t]), weight[t], calls[t], caps, solve)
    }

    /** Every stack of the cached values is a ladder. */
    ghost predicate AllLadders()
      requires Valid()
      reads this
    {
      forall cold | 0 <= cold < nStacks * nTemps && cold % nTemps == 0 :: LadderFrom(cold)
    }

    ghost predicate LadderFrom(cold: nat)
      requires Valid() && cold < nStacks * nTemps && cold % nTemps == 0
      reads this
    {
      StackFits(cold, nTemps, nStacks);
      Ladder(values, cold, nTemps, caps, exp)
    }

    constructor (nStacks: nat, nTemps: nat, optimalRate: real, caps: Caps, exp: real -> real, log: real -> real,
                 solve: (Mat3, Vec3) -> Vec3)
      requires IsExp(exp) && IsSolver(solve) && nTemps > 0
      ensures Valid() && (caps.min <= 0.0 <= caps.max ==> AllLadders())
      ensures this.nStacks == nStacks && this.nTemps == nTemps && this.caps == caps && this.optimalRate == optimalRate
      ensures forall t | 0 <= t < nTemps :: calls[t] == []
    {
      hide InitialMoments, Fitted, IsExp, IsSolver, Ladder;
      this.nStacks, this.nTemps, this.optimalRate, this.caps := nStacks, nTemps, optimalRate, caps;
      this.exp, this.log, this.solve := exp, log, solve;
      var initial := InitialMoments(caps);
      muXX, muXY := seq(nTemps, t => initial.xx), seq(nTemps, t => initial.xy);
      weight, count := seq(nTemps, t => initial.xy), seq(nTemps, t => initial.count);
      values := seq(nStacks * nTemps, i => 1.0);
      calls := seq(nTemps, t => []);
      new;
      FittedNothing(caps, solve);
      if caps.min <= 0.0 <= caps.max {
        forall cold | 0 <= cold < nStacks * nTemps && cold % nTemps == 0
          ensures LadderFrom(cold)
        {
          StackFits(cold, nTemps, nStacks);
          OnesAreLadder(values, cold, nTemps, caps, exp);
        }
      }
    }

    method Update(chain: nat, value: real, side: real, accepted: bool)
      requires Valid()
      modifies this`muXX, this`muXY, this`weight, this`count, this`calls
      ensures Valid()
      ensures var t := chain % nTemps;
              calls == old(calls)[t := old(calls[t]) + [Call(value, side, accepted)]]
    {
      hide Times, Plus, Scale, Sum, Outer, Fitted, Features, Response, IsExp, IsSolver;
      var t := chain % nTemps;
      var x, y := Features(value, side, caps), Response(accepted);
      FittedNext(Moments(muXX[t], muXY[t], count[t]), weight[t], calls[t], caps, solve, Call(value, side, accepted));
      count := count[t := count[t] + 1.0];
      var alpha := 1.0 / count[t];
      muXX := muXX[t := Sum(Scale(muXX[t], 1.0 - alpha), Scale(Outer(x), alpha))];
      muXY := muXY[t := Plus(Times(muXY[t], 1.0 - alpha), Times(Times(x, y), alpha))];
      weight := weight[t := solve(muXX[t], muXY[t])];
      calls := calls[t := calls[t] + [Call(value, side, accepted)]];
    }

    /** Maps the swap to a data point: the step between the two rungs, seen from the lower one. */
    method BetaUpdate(chain: nat, below: real, above: real, accepted: bool)
      requires Valid()
      modifies this`muXX, this`muXY, this`weight, this`count, this`calls
      ensures Valid()
      ensures var t := chain % nTemps;
              calls == old(calls)[t := old(calls[t]) + [Call(log(below) - log(above), log(below), accepted)]]
      ensures old(AllLadders()) ==> AllLadders()
    {
      hide Features, Response, IsExp, IsSolver, Fitted, Ladder;
      Update(chain, log(below) - log(above), log(below), accepted);
      if old(AllLadders()) {
        forall cold | 0 <= cold < nStacks * nTemps && cold % nTemps == 0
          ensures LadderFrom(cold)
        {
          assert old(LadderFrom(cold));
        }
      }
    }

    /** Whatever a temperature was told, in any state that the methods reach. */
    lemma LearnedFromCalls(t: nat)
      requires Valid() && t < nTemps
      ensures count[t] == 10.0 + |calls[t]| as real
      ensures Scale(muXX[t], count[t]) == SquaresFrom(caps, |calls[t]|, SumsOf(caps, calls[t]))
      ensures Times(muXY[t], count[t]) == ResponsesFrom(caps, SumsOf(caps, calls[t]))
    {
      hide Fitted, Scale, Times, SquaresFrom, ResponsesFrom, SumsOf, IsExp, IsSolver;
      FittedToCalls(Moments(muXX[t], muXY[t], count[t]), weight[t], calls[t], caps, solve);
    }

    function PredictFor(chain: nat, side: real): real
      requires Valid()
      reads this
    {
      Predict(weight[chain % nTemps], side, optimalRate, caps)
    }

    /** Queries the model for an entire stack, from its coldest chain up. */
    method ComputeBetaStack(chain: nat)
      requires Valid() && chain < nStacks * nTemps && chain % nTemps == 0
      modifies this`values
      ensures Valid() && chain + nTemps <= |values| && Computed(values, chain, nTemps, weight, optimalRate, caps, exp)
      ensures forall i | 0 <= i < |values| && !(chain < i < chain + nTemps) :: values[i] == old(values[i])
      ensures caps.min <= caps.max && old(AllLadders()) ==> AllLadders()
    {
      hide Predict, IsExp, Fitted, IsSolver;
      StackFits(chain, nTemps, nStacks);
      ghost var before := values;
      var logBeta := 0.0;
      for i := 1 to nTemps
        invariant |values| == |before| && logBeta == LogBeta(weight, optimalRate, caps, i - 1)
        invariant forall j | 0 <= j < |values| && !(chain < j < chain + i) :: values[j] == before[j]
        invariant forall j | 1 <= j < i :: values[chain + j] == exp(LogBeta(weight, optimalRate, caps, j))
      {
        SmallRemainder(i - 1, nTemps);
        logBeta := logBeta - PredictFor(i - 1, logBeta);
        assert logBeta == LogBeta(weight, optimalRate, caps, i);
        hide LogBeta;
        values := values[chain + i := exp(logBeta)];
      }
      hide LogBeta;
      if caps.min <= caps.max && old(AllLadders()) {
        LaddersKept(chain);
      }
    }

    /** Whatever the weights: the recomputed stack is a ladder, and all the others stay ladders. */
    twostate lemma LaddersKept(chain: nat)
      requires old(Valid()) && old(AllLadders()) && Valid() && caps.min <= caps.max
      requires chain < nStacks * nTemps && chain % nTemps == 0 && chain + nTemps <= |values|
      requires Computed(values, chain, nTemps, weight, optimalRate, caps, exp)
      requires forall i | 0 <= i < |values| && !(chain < i < chain + nTemps) :: values[i] == old(values[i])
      ensures AllLadders()
    {
      hide Predict, IsExp, Fitted, IsSolver, Ladder, LogBeta;
      ghost var before := old(values);
      OthersKeepLadders(before, chain);
      assert old(LadderFrom(chain));
      LadderStarts(before, chain, nTemps, caps, exp);
      ComputedIsLadder(values, chain, nTemps, weight, optimalRate, caps, exp);
      forall cold | 0 <= cold < nStacks * nTemps && cold % nTemps == 0
        ensures LadderFrom(cold)
      {
        assert old(LadderFrom(cold));
      }
    }

    lemma OthersKeepLadders(before: seq<real>, chain: nat)
      requires Valid() && chain < nStacks * nTemps && chain % nTemps == 0 && |before| == |values|
      requires forall i | 0 <= i < |values| && !(chain < i < chain + nTemps) :: values[i] == before[i]
      ensures forall cold | 0 <= cold < nStacks * nTemps && cold % nTemps == 0 && cold != chain ::
                cold + nTemps <= |before| && (Ladder(before, cold, nTemps, caps, exp) ==> LadderFrom(cold))
    {
      forall cold | 0 <= cold < nStacks * nTemps && cold % nTemps == 0 && cold != chain
        ensures cold + nTemps <= |before| && (Ladder(before, cold, nTemps, caps, exp) ==> LadderFrom(cold))
      {
        StackFits(cold, nTemps, nStacks);
        if cold < chain {
          StacksApart(cold, chain, nTemps);
        } else {
          StacksApart(chain, cold, nTemps);
        }
        if Ladder(before, cold, nTemps, caps, exp) {
          SameStack(before, values, cold, nTemps, caps, exp);
        }
      }
    }

    /** The width for one chain, between the exponentials of the caps. */
    method ComputeSigma(chain: nat, side: real) returns (sigma: real)
      requires Valid() && chain < nStacks * nTemps
      modifies this`values
      ensures Valid() && values == old(values)[chain := sigma]
      ensures sigma == exp(Predict(weight[chain % nTemps], side, optimalRate, caps))
      ensures caps.min <= caps.max ==> exp(caps.min) <= sigma <= exp(caps.max)
    {
      hide Predict, Fitted, IsSolver;
      var step := PredictFor(chain, side);
      sigma := exp(step);
      values := values[chain := sigma];
      if caps.min <= caps.max {
        PredictIsBest(weight[chain % nTemps], side, optimalRate, caps, caps.min);
        ExpGrows(exp, caps.min, step);
        ExpGrows(exp, step, caps.max);
        hide IsExp;
      }
    }
  }

  lemma LadderStarts(values: seq<real>, cold: nat, rungs: nat, caps: Caps, exp: real -> real)
    requires cold + rungs <= |values| && rungs > 0
    ensures Ladder(values, cold, rungs, caps, exp) ==> values[cold] == 1.0
  {
  }

  lemma SmallRemainder(a: nat, n: nat)
    requires a < n
    ensures a % n == a
  {
  }

  lemma SameStack(before: seq<real>, values: seq<real>, cold: nat, rungs: nat, caps: Caps, exp: real -> real)
    requires cold + rungs <= |before| == |values| && rungs > 0 && Ladder(before, cold, rungs, caps, exp)
    requires forall i | cold <= i < cold + rungs :: values[i] == before[i]
    ensures Ladder(values, cold, rungs, caps, exp)
  {
    forall i | 1 <= i < rungs
      ensures RungAt(values, cold, i, caps, exp)
    {
      assert RungAt(before, cold, i, caps, exp);
      hide Rung;
    }
  }
}
