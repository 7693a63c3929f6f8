/** Why the acceptance tests of infer/chainarray.cpp sample the tempered likelihoods: detailed balance, and that the steps
    leave the product of the tempered likelihoods invariant on a finite space. */
module Metropolis {
  import opened RealMath
  import opened Acceptance

  /** exp, but at most one; and zero where the comparison with a draw fails anyway. */
  function Chance(n: Number, exp: real -> real): real {
    match n
    case Real(x) => Min(1.0, exp(x))
    case PlusInf => 1.0
    case MinusInf => 0.0
    case NotANumber => 0.0
  }

  /** The draws from [0, 1) that pass are exactly those below the chance. */
  lemma BelowIffChance(draw: real, n: Number, exp: real -> real)
    requires 0.0 <= draw < 1.0
    ensures Below(draw, n, exp) <==> draw < Chance(n, exp)
  {
  }

  function ProposalChance(from: Energy, to: Energy, beta: real, exp: real -> real): real {
    if to.Finite? then Chance(Product(-beta, Difference(to, from)), exp) else 0.0
  }

  lemma AcceptProposalIff(newState: State, oldState: State, beta: real, exp: real -> real, draw: real)
    requires 0.0 <= draw < 1.0
    ensures AcceptProposal(newState, oldState, beta, exp, draw)
            <==> draw < ProposalChance(oldState.energy, newState.energy, beta, exp)
  {
    if newState.energy.Finite? {
      BelowIffChance(draw, Product(-beta, Difference(newState.energy, oldState.energy)), exp);
    }
  }

  /** As swap calls acceptSwap: the higher chain first. */
  function SwapChance(high: Energy, low: Energy, betaHigh: real, betaLow: real, exp: real -> real): real {
    Chance(Product(betaLow - betaHigh, Difference(low, high)), exp)
  }

  lemma AcceptSwapIff(high: State, low: State, betaHigh: real, betaLow: real, exp: real -> real, draw: real)
    requires 0.0 <= draw < 1.0
    ensures AcceptSwap(high, low, betaHigh, betaLow, exp, draw)
            <==> draw < SwapChance(high.energy, low.energy, betaHigh, betaLow, exp)
  {
    BelowIffChance(draw, Product(betaLow - betaHigh, Difference(low.energy, high.energy)), exp);
  }

  // ------------------------------------------------------------- the chances

  /** Going down in energy is certain, going up has the exponential of the tempered difference, and a state of infinite
      energy is never entered. It is left with certainty at any positive inverse temperature, and never at zero. */
  lemma ProposalChanceIs(a: Energy, b: Energy, beta: real, exp: real -> real)
    requires IsExp(exp) && beta >= 0.0
    ensures b.Infinite? ==> ProposalChance(a, b, beta, exp) == 0.0
    ensures b.Finite? && a.Infinite? ==> ProposalChance(a, b, beta, exp) == if beta > 0.0 then 1.0 else 0.0
    ensures b.Finite? && a.Finite? ==>
              ProposalChance(a, b, beta, exp) == if b.value <= a.value then 1.0 else exp(Multiple(-beta, b.value - a.value))
  {
    if a.Finite? && b.Finite? {
      MultipleSign(-beta, b.value - a.value);
      ChanceIs(Multiple(-beta, b.value - a.value), exp);
      if b.value <= a.value {
        MultipleSign(beta, a.value - b.value);
        assert Multiple(-beta, b.value - a.value) == Multiple(beta, a.value - b.value);
      } else {
        MultipleSign(beta, b.value - a.value);
        assert Multiple(-beta, b.value - a.value) == -Multiple(beta, b.value - a.value);
      }
    }
  }

  lemma MultipleSign(k: real, x: real)
    ensures k >= 0.0 && x >= 0.0 ==> Multiple(k, x) >= 0.0
    ensures k == 0.0 || x == 0.0 ==> Multiple(k, x) == 0.0
  {
  }

  lemma ChanceIs(x: real, exp: real -> real)
    requires IsExp(exp)
    ensures x >= 0.0 ==> Chance(Real(x), exp) == 1.0
    ensures x <= 0.0 ==> Chance(Real(x), exp) == exp(x)
  {
    hide IsExp;
    ExpZero(exp);
    if x >= 0.0 {
      ExpGrows(exp, 0.0, x);
    }
    if x <= 0.0 {
      ExpGrows(exp, x, 0.0);
    }
  }

  /** A swap is certain when it gives the colder chain, whose inverse temperature is the higher, the lower energy. */
  lemma SwapChanceIs(high: Energy, low: Energy, betaHigh: real, betaLow: real, exp: real -> real)
    requires IsExp(exp) && betaHigh < betaLow
    ensures high.Infinite? ==> SwapChance(high, low, betaHigh, betaLow, exp) == 0.0
    ensures high.Finite? && low.Infinite? ==> SwapChance(high, low, betaHigh, betaLow, exp) == 1.0
    ensures high.Finite? && low.Finite? ==>
              SwapChance(high, low, betaHigh, betaLow, exp)
              == if high.value <= low.value then 1.0 else exp(Multiple(betaLow - betaHigh, low.value - high.value))
  {
    if high.Finite? && low.Finite? {
      var (k, x) := (betaLow - betaHigh, low.value - high.value);
      ChanceIs(Multiple(k, x), exp);
      MultipleSign(k, x);
      MultipleSign(k, -x);
      assert Multiple(k, -x) == -Multiple(k, x);
    }
  }

  // ------------------------------------------------------------- detailed balance

  /** The tempered likelihood. */
  function Weight(e: Energy, beta: real, exp: real -> real): real {
    if e.Finite? then exp(Multiple(-beta, e.value)) else 0.0
  }

  lemma ExpBalance(u: real, v: real, exp: real -> real)
    requires IsExp(exp)
    ensures Multiple(exp(u), Min(1.0, exp(v - u))) == Multiple(exp(v), Min(1.0, exp(u - v)))
  {
    hide IsExp;
    ExpZero(exp);
    ExpSum(exp, u, v - u);
    ExpSum(exp, v, u - v);
    assert u + (v - u) == v && v + (u - v) == u;
    if u <= v {
      ExpGrows(exp, 0.0, v - u);
      ExpGrows(exp, u - v, 0.0);
    } else {
      ExpGrows(exp, v - u, 0.0);
      ExpGrows(exp, 0.0, u - v);
    }
  }

  lemma FiniteProposal(a: real, b: real, beta: real, exp: real -> real, u: real, v: real)
    requires u == Multiple(-beta, a) && v == Multiple(-beta, b)
    ensures ProposalChance(Finite(a), Finite(b), beta, exp) == Min(1.0, exp(v - u))
  {
    assert Multiple(-beta, b - a) == v - u;
    hide Min, Multiple;
  }

  /** A proposal is accepted as often in one direction as in the other, whatever the energies and the temperature. */
  lemma ProposalBalance(a: Energy, b: Energy, beta: real, exp: real -> real)
    requires IsExp(exp)
    ensures Multiple(Weight(a, beta, exp), ProposalChance(a, b, beta, exp))
            == Multiple(Weight(b, beta, exp), ProposalChance(b, a, beta, exp))
  {
    hide IsExp;
    if a.Finite? && b.Finite? {
      FiniteProposalBalance(a.value, b.value, beta, exp);
    }
  }

  lemma FiniteProposalBalance(a: real, b: real, beta: real, exp: real -> real)
    requires IsExp(exp)
    ensures Multiple(Weight(Finite(a), beta, exp), ProposalChance(Finite(a), Finite(b), beta, exp))
            == Multiple(Weight(Finite(b), beta, exp), ProposalChance(Finite(b), Finite(a), beta, exp))
  {
    hide IsExp, Multiple, ProposalChance, Min;
    var (u, v) := (Multiple(-beta, a), Multiple(-beta, b));
    FiniteProposal(a, b, beta, exp, u, v);
    FiniteProposal(b, a, beta, exp, v, u);
    ExpBalance(u, v, exp);
  }

  function PairWeight(low: Energy, high: Energy, betaLow: real, betaHigh: real, exp: real -> real): real {
    Multiple(Weight(low, betaLow, exp), Weight(high, betaHigh, exp))
  }

  /** A swap too, for the product of the two chains' tempered likelihoods. */
  lemma SwapBalance(low: Energy, high: Energy, betaLow: real, betaHigh: real, exp: real -> real)
    requires IsExp(exp)
    ensures Multiple(PairWeight(low, high, betaLow, betaHigh, exp), SwapChance(high, low, betaHigh, betaLow, exp))
            == Multiple(PairWeight(high, low, betaLow, betaHigh, exp), SwapChance(low, high, betaHigh, betaLow, exp))
  {
    hide IsExp;
    if low.Finite? && high.Finite? {
      FiniteSwapBalance(low.value, high.value, betaLow, betaHigh, exp);
    }
  }

  lemma FiniteSwapBalance(l: real, h: real, betaLow: real, betaHigh: real, exp: real -> real)
    requires IsExp(exp)
    ensures Multiple(PairWeight(Finite(l), Finite(h), betaLow, betaHigh, exp),
                     SwapChance(Finite(h), Finite(l), betaHigh, betaLow, exp))
            == Multiple(PairWeight(Finite(h), Finite(l), betaLow, betaHigh, exp),
                        SwapChance(Finite(l), Finite(h), betaHigh, betaLow, exp))
  {
    hide IsExp, Multiple, PairWeight, SwapChance, Min;
    var (u, v) := (Multiple(-betaLow, l) + Multiple(-betaHigh, h), Multiple(-betaLow, h) + Multiple(-betaHigh, l));
    FinitePair(l, h, betaLow, betaHigh, exp);
    FinitePair(h, l, betaLow, betaHigh, exp);
    FiniteSwap(l, h, betaLow, betaHigh, exp, u, v);
    FiniteSwap(h, l, betaLow, betaHigh, exp, v, u);
    ExpBalance(u, v, exp);
  }

  lemma FinitePair(l: real, h: real, betaLow: real, betaHigh: real, exp: real -> real)
    requires IsExp(exp)
    ensures PairWeight(Finite(l), Finite(h), betaLow, betaHigh, exp) == exp(Multiple(-betaLow, l) + Multiple(-betaHigh, h))
  {
  }

  lemma FiniteSwap(l: real, h: real, betaLow: real, betaHigh: real, exp: real -> real, u: real, v: real)
    requires u == Multiple(-betaLow, l) + Multiple(-betaHigh, h) && v == Multiple(-betaLow, h) + Multiple(-betaHigh, l)
    ensures SwapChance(Finite(h), Finite(l), betaHigh, betaLow, exp) == Min(1.0, exp(v - u))
  {
    assert Multiple(betaLow - betaHigh, l - h) == v - u;
    hide Min, Multiple;
  }
}
