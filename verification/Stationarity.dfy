/** The chains of a stack on a finite space: proposals and swaps, with the acceptance tests of infer/chainarray.cpp, leave
    the product of the tempered likelihoods invariant. */
module Stationarity {
  import opened RealMath
  import opened Acceptance
  import opened Metropolis
  import ChainStore

  /** Finitely many joint configurations of the chains of a stack, by the energies of each chain's sample, and the inverse
      temperatures of the chains. */
  datatype Space = Space(energies: seq<seq<Energy>>, betas: seq<real>, exp: real -> real)

  /** One step: a proposal for one chain from a table of proposal probabilities, or a swap of two chains, which leads from
      every configuration to its partner. */
  datatype Move = Propose(chain: nat, q: seq<seq<real>>) | Exchange(low: nat, high: nat, partner: seq<nat>)

  ghost predicate ValidSpace(s: Space) {
    IsExp(s.exp) && forall i | 0 <= i < |s.energies| :: |s.energies[i]| == |s.betas|
  }

  function RowSum(row: seq<real>, m: nat): real
    requires m <= |row|
  {
    if m == 0 then 0.0 else RowSum(row, m - 1) + row[m - 1]
  }

  ghost predicate ProbabilityTable(q: seq<seq<real>>, n: nat) {
    && |q| == n && (forall i | 0 <= i < n :: |q[i]| == n && RowSum(q[i], n) == 1.0)
    && (forall i, j | 0 <= i < n && 0 <= j < n :: q[i][j] >= 0.0 && q[i][j] == q[j][i])
  }

  /** A proposal changes the one chain only, with a symmetric probability; a swap exchanges the two chains' samples. */
  ghost predicate ValidMove(s: Space, m: Move)
    requires ValidSpace(s)
  {
    var n := |s.energies|;
    match m
    case Propose(c, q) =>
      && c < |s.betas| && ProbabilityTable(q, n)
      && forall i, j | 0 <= i < n && 0 <= j < n && q[i][j] != 0.0 ::
           s.energies[j] == s.energies[i][c := s.energies[j][c]]
    case Exchange(low, high, partner) =>
      && low < high < |s.betas| && |partner| == n
      && (forall i | 0 <= i < n :: partner[i] < n && partner[partner[i]] == i)
      && forall i | 0 <= i < n ::
           s.energies[partner[i]] == s.energies[i][low := s.energies[i][high]][high := s.energies[i][low]]
  }

  function Proposed(s: Space, m: Move, i: nat, j: nat): real
    requires ValidSpace(s) && ValidMove(s, m) && i < |s.energies| && j < |s.energies|
  {
    match m
    case Propose(_, q) => q[i][j]
    case Exchange(_, _, partner) => if partner[i] == j then 1.0 else 0.0
  }

  function AcceptChance(s: Space, m: Move, i: nat, j: nat): real
    requires ValidSpace(s) && ValidMove(s, m) && i < |s.energies| && j < |s.energies|
  {
    match m
    case Propose(c, _) => ProposalChance(s.energies[i][c], s.energies[j][c], s.betas[c], s.exp)
    case Exchange(low, high, _) =>
      SwapChance(s.energies[i][high], s.energies[i][low], s.betas[high], s.betas[low], s.exp)
  }

  function Going(s: Space, m: Move, i: nat, j: nat): real
    requires ValidSpace(s) && ValidMove(s, m) && i < |s.energies| && j < |s.energies|
  {
    Multiple(Proposed(s, m, i, j), AcceptChance(s, m, i, j))
  }

  /** The chance of going from i to another of the first k configurations. */
  function Leaving(s: Space, m: Move, i: nat, k: nat): real
    requires ValidSpace(s) && ValidMove(s, m) && i < |s.energies| && k <= |s.energies|
  {
    if k == 0 then 0.0 else Leaving(s, m, i, k - 1) + if k - 1 == i then 0.0 else Going(s, m, i, k - 1)
  }

  /** The step's transition probability: a rejected proposal stays. */
  function Transition(s: Space, m: Move, i: nat, j: nat): real
    requires ValidSpace(s) && ValidMove(s, m) && i < |s.energies| && j < |s.energies|
  {
    if i != j then Going(s, m, i, j) else 1.0 - Leaving(s, m, i, |s.energies|)
  }

  // ------------------------------------------------------------- the joint target

  /** The product of the first k chains' tempered likelihoods, those in `skip` left out. */
  function WeightExcept(e: seq<Energy>, betas: seq<real>, exp: real -> real, skip: set<nat>, k: nat): real
    requires k <= |e| == |betas|
  {
    if k == 0 then 1.0
    else if k - 1 in skip then WeightExcept(e, betas, exp, skip, k - 1)
    else Multiple(WeightExcept(e, betas, exp, skip, k - 1), Weight(e[k - 1], betas[k - 1], exp))
  }

  function JointWeight(s: Space, i: nat): real
    requires ValidSpace(s) && i < |s.energies|
  {
    WeightExcept(s.energies[i], s.betas, s.exp, {}, |s.betas|)
  }

  function Target(s: Space): (r: seq<real>)
    requires ValidSpace(s)
    ensures |r| == |s.energies| && forall i | 0 <= i < |r| :: r[i] == JointWeight(s, i)
  {
    seq(|s.energies|, i requires 0 <= i < |s.energies| => JointWeight(s, i))
  }

  lemma Associate(a: real, b: real, c: real)
    ensures Multiple(Multiple(a, b), c) == Multiple(a, Multiple(b, c))
    ensures Multiple(Multiple(a, b), c) == Multiple(Multiple(a, c), b)
  {
  }

  lemma One(a: real)
    ensures Multiple(a, 1.0) == a && Multiple(1.0, a) == a
  {
  }

  lemma {:induction false} ExceptSame(e: seq<Energy>, f: seq<Energy>, betas: seq<real>, exp: real -> real, skip: set<nat>, k: nat)
    requires k <= |e| == |f| == |betas| && forall c | 0 <= c < k && c !in skip :: e[c] == f[c]
    ensures WeightExcept(e, betas, exp, skip, k) == WeightExcept(f, betas, exp, skip, k)
  {
    if k > 0 {
      ExceptSame(e, f, betas, exp, skip, k - 1);
    }
  }

  /** One factor taken out. */
  lemma {:induction false} FactorOut(e: seq<Energy>, betas: seq<real>, exp: real -> real, skip: set<nat>, c: nat, k: nat)
    requires k <= |e| == |betas| && c < |e| && c !in skip
    ensures WeightExcept(e, betas, exp, skip, k)
            == if c < k then Multiple(WeightExcept(e, betas, exp, skip + {c}, k), Weight(e[c], betas[c], exp))
               else WeightExcept(e, betas, exp, skip + {c}, k)
  {
    hide Multiple, Weight;
    if k > 0 {
      FactorOut(e, betas, exp, skip, c, k - 1);
      if c < k - 1 && k - 1 !in skip {
        Associate(WeightExcept(e, betas, exp, skip + {c}, k - 1), Weight(e[c], betas[c], exp),
                  Weight(e[k - 1], betas[k - 1], exp));
      }
    }
  }

  // ---------------------------------------------------------------- detailed balance

  lemma Balance(s: Space, m: Move, i: nat, j: nat)
    requires ValidSpace(s) && ValidMove(s, m) && i < |s.energies| && j < |s.energies|
    ensures Multiple(JointWeight(s, i), Going(s, m, i, j)) == Multiple(JointWeight(s, j), Going(s, m, j, i))
  {
    hide Multiple, IsExp, RowSum, WeightExcept, ProposalChance, SwapChance;
    var (e, f) := (s.energies[i], s.energies[j]);
    if m.Propose? {
      if m.q[i][j] == 0.0 {
        ZeroGoing(s, m, i, j);
        ZeroGoing(s, m, j, i);
      } else {
        OneChainBalance(e, f, s.betas, s.exp, m.chain, m.q[i][j]);
      }
    } else {
      if m.partner[i] != j {
        assert m.partner[j] != i;
        ZeroGoing(s, m, i, j);
        ZeroGoing(s, m, j, i);
      } else {
        assert m.partner[j] == i;
        TwoChainBalance(e, f, s.betas, s.exp, m.low, m.high);
      }
    }
  }

  lemma ZeroGoing(s: Space, m: Move, i: nat, j: nat)
    requires ValidSpace(s) && ValidMove(s, m) && i < |s.energies| && j < |s.energies| && Proposed(s, m, i, j) == 0.0
    ensures forall w: real :: Multiple(w, Going(s, m, i, j)) == 0.0
  {
  }

  lemma OneChainBalance(e: seq<Energy>, f: seq<Energy>, betas: seq<real>, exp: real -> real, c: nat, q: real)
    requires IsExp(exp) && c < |e| == |f| == |betas| && f == e[c := f[c]]
    ensures Multiple(WeightExcept(e, betas, exp, {}, |e|), Multiple(q, ProposalChance(e[c], f[c], betas[c], exp)))
            == Multiple(WeightExcept(f, betas, exp, {}, |e|), Multiple(q, ProposalChance(f[c], e[c], betas[c], exp)))
  {
    hide IsExp, Multiple, Weight, ProposalChance;
    FactorOut(e, betas, exp, {}, c, |e|);
    FactorOut(f, betas, exp, {}, c, |e|);
    ExceptSame(e, f, betas, exp, {} + {c}, |e|);
    hide WeightExcept;
    ProposalBalance(e[c], f[c], betas[c], exp);
    CommonFactors(WeightExcept(e, betas, exp, {} + {c}, |e|), q, Weight(e[c], betas[c], exp),
                  ProposalChance(e[c], f[c], betas[c], exp), Weight(f[c], betas[c], exp),
                  ProposalChance(f[c], e[c], betas[c], exp));
  }

  lemma CommonFactors(rest: real, q: real, a: real, out: real, b: real, back: real)
    requires Multiple(a, out) == Multiple(b, back)
    ensures Multiple(Multiple(rest, a), Multiple(q, out)) == Multiple(Multiple(rest, b), Multiple(q, back))
  {
  }

  lemma TwoChainBalance(e: seq<Energy>, f: seq<Energy>, betas: seq<real>, exp: real -> real, low: nat, high: nat)
    requires IsExp(exp) && low < high < |e| == |f| == |betas| && f == e[low := e[high]][high := e[low]]
    ensures Multiple(WeightExcept(e, betas, exp, {}, |e|),
                     Multiple(1.0, SwapChance(e[high], e[low], betas[high], betas[low], exp)))
            == Multiple(WeightExcept(f, betas, exp, {}, |e|),
                     Multiple(1.0, SwapChance(f[high], f[low], betas[high], betas[low], exp)))
  {
    hide IsExp, Multiple, Weight, SwapChance;
    var (betaLow, betaHigh) := (betas[low], betas[high]);
    var (out, back) := (SwapChance(e[high], e[low], betaHigh, betaLow, exp), SwapChance(e[low], e[high], betaHigh, betaLow, exp));
    assert f[low] == e[high] && f[high] == e[low];
    FactorTwo(e, betas, exp, low, high);
    FactorTwo(f, betas, exp, low, high);
    ExceptSame(e, f, betas, exp, {low, high}, |e|);
    hide WeightExcept;
    SwapBalance(e[low], e[high], betaLow, betaHigh, exp);
    One(out);
    One(back);
    PairFactors(WeightExcept(e, betas, exp, {low, high}, |e|), Weight(e[low], betaLow, exp), Weight(e[high], betaHigh, exp), out,
                Weight(e[high], betaLow, exp), Weight(e[low], betaHigh, exp), back);
  }

  lemma FactorTwo(e: seq<Energy>, betas: seq<real>, exp: real -> real, low: nat, high: nat)
    requires low < high < |e| == |betas|
    ensures WeightExcept(e, betas, exp, {}, |e|)
            == Multiple(Multiple(WeightExcept(e, betas, exp, {low, high}, |e|), Weight(e[high], betas[high], exp)),
                        Weight(e[low], betas[low], exp))
  {
    FactorOut(e, betas, exp, {}, low, |e|);
    FactorOut(e, betas, exp, {} + {low}, high, |e|);
    assert {} + {low} + {high} == {low, high};
    hide WeightExcept, Multiple, Weight;
  }

  lemma PairFactors(rest: real, a: real, b: real, out: real, c: real, d: real, back: real)
    requires Multiple(Multiple(a, b), out) == Multiple(Multiple(c, d), back)
    ensures Multiple(Multiple(Multiple(rest, b), a), out) == Multiple(Multiple(Multiple(rest, d), c), back)
  {
  }

  // ------------------------------------------------------------ transition probabilities

  /** The chance that one of the first k configurations is proposed. */
  function ProposedSum(s: Space, m: Move, i: nat, k: nat): real
    requires ValidSpace(s) && ValidMove(s, m) && i < |s.energies| && k <= |s.energies|
  {
    if k == 0 then 0.0 else ProposedSum(s, m, i, k - 1) + Proposed(s, m, i, k - 1)
  }

  lemma {:induction false} ProposedIs(s: Space, m: Move, i: nat, k: nat)
    requires ValidSpace(s) && ValidMove(s, m) && i < |s.energies| && k <= |s.energies|
    ensures ProposedSum(s, m, i, k)
            == if m.Propose? then RowSum(m.q[i], k) else if m.partner[i] < k then 1.0 else 0.0
  {
    hide IsExp;
    if k > 0 {
      ProposedIs(s, m, i, k - 1);
    }
  }

  lemma ChanceInRange(n: Number, exp: real -> real)
    requires IsExp(exp)
    ensures 0.0 <= Chance(n, exp) <= 1.0
  {
  }

  lemma GoingInRange(s: Space, m: Move, i: nat, j: nat)
    requires ValidSpace(s) && ValidMove(s, m) && i < |s.energies| && j < |s.energies|
    ensures 0.0 <= Going(s, m, i, j) <= Proposed(s, m, i, j)
  {
    hide IsExp, Chance, Product, Difference, Multiple, RowSum;
    assert 0.0 <= AcceptChance(s, m, i, j) <= 1.0 by {
      if m.Propose? {
        ChanceInRange(Product(-s.betas[m.chain], Difference(s.energies[j][m.chain], s.energies[i][m.chain])), s.exp);
      } else {
        ChanceInRange(Product(s.betas[m.low] - s.betas[m.high], Difference(s.energies[i][m.low], s.energies[i][m.high])), s.exp);
      }
    }
    assert Proposed(s, m, i, j) >= 0.0;
    hide AcceptChance, Proposed;
    PartOf(Proposed(s, m, i, j), AcceptChance(s, m, i, j));
  }

  lemma PartOf(a: real, part: real)
    requires a >= 0.0 && 0.0 <= part <= 1.0
    ensures 0.0 <= Multiple(a, part) <= a
  {
  }

  lemma {:induction false} LeavingInRange(s: Space, m: Move, i: nat, k: nat)
    requires ValidSpace(s) && ValidMove(s, m) && i < |s.energies| && k <= |s.energies|
    ensures 0.0 <= Leaving(s, m, i, k) <= ProposedSum(s, m, i, k)
  {
    hide ValidMove, ValidSpace, Going, Proposed;
    if k > 0 {
      LeavingInRange(s, m, i, k - 1);
      GoingInRange(s, m, i, k - 1);
    }
  }

  function TransitionSum(s: Space, m: Move, i: nat, k: nat): real
    requires ValidSpace(s) && ValidMove(s, m) && i < |s.energies| && k <= |s.energies|
  {
    if k == 0 then 0.0 else TransitionSum(s, m, i, k - 1) + Transition(s, m, i, k - 1)
  }

  lemma {:induction false} TransitionSumIs(s: Space, m: Move, i: nat, k: nat)
    requires ValidSpace(s) && ValidMove(s, m) && i < |s.energies| && k <= |s.energies|
    ensures TransitionSum(s, m, i, k) == Leaving(s, m, i, k) + if i < k then Transition(s, m, i, i) else 0.0
  {
    hide ValidMove, ValidSpace, Going;
    if k > 0 {
      TransitionSumIs(s, m, i, k - 1);
    }
  }

  /** From every configuration the transition probabilities are not negative and add up to one. */
  lemma TransitionsAreProbabilities(s: Space, m: Move, i: nat)
    requires ValidSpace(s) && ValidMove(s, m) && i < |s.energies|
    ensures TransitionSum(s, m, i, |s.energies|) == 1.0
    ensures forall j | 0 <= j < |s.energies| :: Transition(s, m, i, j) >= 0.0
  {
    var n := |s.energies|;
    ProposedIs(s, m, i, n);
    assert ProposedSum(s, m, i, n) == 1.0 by {
      hide IsExp;
    }
    hide ValidMove, ValidSpace, Going, Proposed, RowSum;
    TransitionSumIs(s, m, i, n);
    LeavingInRange(s, m, i, n);
    forall j | 0 <= j < n
      ensures Transition(s, m, i, j) >= 0.0
    {
      GoingInRange(s, m, i, j);
    }
  }

  // ------------------------------------------------------------------ invariance

  /** What reaches configuration j from the first k, when configuration i has probability w[i]. */
  function Inflow(s: Space, m: Move, w: seq<real>, j: nat, k: nat): real
    requires ValidSpace(s) && ValidMove(s, m) && |w| == |s.energies| && j < |w| && k <= |w|
  {
    if k == 0 then 0.0 else Inflow(s, m, w, j, k - 1) + Multiple(w[k - 1], Transition(s, m, k - 1, j))
  }

  /** The distribution after the step. */
  function Push(s: Space, m: Move, w: seq<real>): (r: seq<real>)
    requires ValidSpace(s) && ValidMove(s, m) && |w| == |s.energies|
    ensures |r| == |w|
  {
    seq(|w|, j requires 0 <= j < |w| => Inflow(s, m, w, j, |w|))
  }

  lemma {:induction false} InflowIsOutflow(s: Space, m: Move, j: nat, k: nat)
    requires ValidSpace(s) && ValidMove(s, m) && j < |s.energies| && k <= |s.energies|
    ensures Inflow(s, m, Target(s), j, k)
            == Multiple(Target(s)[j], Leaving(s, m, j, k) + if j < k then Transition(s, m, j, j) else 0.0)
  {
    hide Target, ValidMove, ValidSpace, Going, JointWeight;
    var w := Target(s);
    if k == 0 {
      Distribute(w[j], 0.0, 0.0);
    } else {
      InflowIsOutflow(s, m, j, k - 1);
      if k - 1 == j {
        Distribute(w[j], Leaving(s, m, j, j), Transition(s, m, j, j));
      } else {
        Balance(s, m, k - 1, j);
        Distribute(w[j], Leaving(s, m, j, k - 1) + if j < k - 1 then Transition(s, m, j, j) else 0.0, Going(s, m, j, k - 1));
      }
      hide Multiple, Transition;
    }
  }

  lemma Distribute(w: real, a: real, b: real)
    ensures Multiple(w, a + b) == Multiple(w, a) + Multiple(w, b)
    ensures a == 0.0 ==> Multiple(w, a) == 0.0
  {
  }

  /** Every step leaves the product of the tempered likelihoods as it is. */
  lemma StepInvariant(s: Space, m: Move)
    requires ValidSpace(s) && ValidMove(s, m)
    ensures Push(s, m, Target(s)) == Target(s)
  {
    var (w, n) := (Target(s), |s.energies|);
    hide Target, ValidMove, ValidSpace, Multiple;
    forall j | 0 <= j < n
      ensures Push(s, m, w)[j] == w[j]
    {
      InflowIsOutflow(s, m, j, n);
      One(w[j]);
    }
  }

  ghost function PushAll(s: Space, moves: seq<Move>, w: seq<real>): (r: seq<real>)
    requires ValidSpace(s) && (forall m | m in moves :: ValidMove(s, m)) && |w| == |s.energies|
    ensures |r| == |w|
  {
    if moves == [] then w else PushAll(s, moves[1..], Push(s, moves[0], w))
  }

  /** And so does every succession of proposals and swaps, in any order. */
  lemma {:induction false} RunInvariant(s: Space, moves: seq<Move>)
    requires ValidSpace(s) && forall m | m in moves :: ValidMove(s, m)
    ensures PushAll(s, moves, Target(s)) == Target(s)
  {
    hide ValidMove, ValidSpace, Target, Push;
    if moves != [] {
      StepInvariant(s, moves[0]);
      RunInvariant(s, moves[1..]);
    }
  }

  // ----------------------------------------------------- the chain store takes these steps

  /** The newest states of the chains from `first` on are a configuration of the space. */
  ghost predicate At(s: Space, h: ChainStore.Histories, first: nat, i: nat)
    requires ValidSpace(s) && i < |s.energies|
  {
    && |h.beta| == |h.sigma| == |h.states| && first + |s.betas| <= |h.states|
    && forall c | 0 <= c < |s.betas| :: ChainAt(s, h, first, i, c)
  }

  ghost predicate ChainAt(s: Space, h: ChainStore.Histories, first: nat, i: nat, c: nat)
    requires ValidSpace(s) && i < |s.energies| && c < |s.betas|
    requires |h.beta| == |h.states| && first + |s.betas| <= |h.states|
  {
    && h.beta[first + c] == s.betas[c] && h.states[first + c] != []
    && ChainStore.Last(h.states[first + c]).energy == s.energies[i][c]
  }

  /** append moves from one configuration to the proposed one exactly for the draws below the step's chance of accepting. */
  lemma AppendMoves(s: Space, m: Move, i: nat, j: nat, h: ChainStore.Histories, first: nat, op: ChainStore.Op)
    requires ValidSpace(s) && ValidMove(s, m) && i < |s.energies| && j < |s.energies| && At(s, h, first, i)
    requires m.Propose? && m.q[i][j] != 0.0
    requires op.Append? && op.id == first + m.chain && op.energy == s.energies[j][m.chain] && 0.0 <= op.draw < 1.0
    ensures ChainStore.Enabled(h.states, op)
    ensures At(s, ChainStore.IdealStep(h, op, s.exp), first, if op.draw < AcceptChance(s, m, i, j) then j else i)
  {
    assert ChainAt(s, h, first, i, m.chain);
    ChainStore.AppendStores(h, op, s.exp);
    hide ProposalChance, ProbabilityTable, IsExp;
    var (h', k) := (ChainStore.IdealStep(h, op, s.exp), if op.draw < AcceptChance(s, m, i, j) then j else i);
    hide ChainStore.IdealStep;
    forall c | 0 <= c < |s.betas|
      ensures ChainAt(s, h', first, k, c)
    {
      assert ChainAt(s, h, first, i, c);
    }
  }

  /** So does swap. */
  lemma SwapMoves(s: Space, m: Move, i: nat, h: ChainStore.Histories, first: nat, op: ChainStore.Op)
    requires ValidSpace(s) && ValidMove(s, m) && i < |s.energies| && At(s, h, first, i) && m.Exchange?
    requires op.Swap? && 0.0 <= op.draw < 1.0
    requires (op.id1, op.id2) == (first + m.low, first + m.high) || (op.id1, op.id2) == (first + m.high, first + m.low)
    ensures ChainStore.Enabled(h.states, op)
    ensures At(s, ChainStore.IdealStep(h, op, s.exp), first,
               if op.draw < AcceptChance(s, m, i, m.partner[i]) then m.partner[i] else i)
  {
    assert ChainAt(s, h, first, i, m.low) && ChainAt(s, h, first, i, m.high);
    ChainStore.SwapStores(h, op, s.exp);
    hide SwapChance, IsExp;
    var j := m.partner[i];
    var (h', k) := (ChainStore.IdealStep(h, op, s.exp), if op.draw < AcceptChance(s, m, i, j) then j else i);
    hide ChainStore.IdealStep;
    forall c | 0 <= c < |s.betas|
      ensures ChainAt(s, h', first, k, c)
    {
      assert ChainAt(s, h, first, i, c);
    }
  }
}
