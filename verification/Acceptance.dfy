/** States of the chains (infer/datatypes.hpp) and the two acceptance tests (infer/chainarray.cpp). */
module Acceptance {
  import opened RealMath

  type Sample = seq<real>

  /** A negative logarithm of a likelihood: infinite where the likelihood vanishes. */
  datatype Energy = Finite(value: real) | Infinite

  datatype SwapType = NoAttempt | Accepted | Rejected

  datatype State = State(sample: Sample, energy: Energy, sigma: real, beta: real, accepted: bool, swapType: SwapType)

  /** A number of the floating-point arithmetic, as far as infinite energies make it matter. */
  datatype Number = Real(x: real) | PlusInf | MinusInf | NotANumber

  function Difference(a: Energy, b: Energy): Number {
    if a.Finite? && b.Finite? then Real(a.value - b.value)
    else if a.Finite? then MinusInf
    else if b.Finite? then PlusInf
    else NotANumber
  }

  function Product(k: real, n: Number): Number {
    match n
    case Real(x) => Real(Multiple(k, x))
    case PlusInf => if k > 0.0 then PlusInf else if k < 0.0 then MinusInf else NotANumber
    case MinusInf => if k > 0.0 then MinusInf else if k < 0.0 then PlusInf else NotANumber
    case NotANumber => NotANumber
  }

  /** Whether a draw from [0, 1) is below the exponential of n. */
  predicate Below(draw: real, n: Number, exp: real -> real) {
    match n
    case Real(x) => draw < exp(x)
    case PlusInf => true
    case MinusInf => false
    case NotANumber => false
  }

  /** acceptProposal, for one draw. */
  predicate AcceptProposal(newState: State, oldState: State, beta: real, exp: real -> real, draw: real) {
    newState.energy.Finite? && Below(draw, Product(-beta, Difference(newState.energy, oldState.energy)), exp)
  }

  /** acceptSwap, for one draw. */
  predicate AcceptSwap(stateLow: State, stateHigh: State, betaLow: real, betaHigh: real, exp: real -> real, draw: real) {
    Below(draw, Product(betaHigh - betaLow, Difference(stateHigh.energy, stateLow.energy)), exp)
  }
}
