/** The buffered chains of infer/chainarray.cpp on values, and the plain histories that they stand for. */
module ChainStore {
  import opened RealMath
  import opened Acceptance
  import opened Stacks
  import opened Metropolis

  /** The cached states, the number of states that have left each cache, and the file of every stack (db/db.cpp). */
  datatype Store = Store(temps: nat, lengthOnDisk: seq<nat>, beta: seq<real>, sigma: seq<real>, cache: seq<seq<State>>,
                         files: seq<seq<State>>)

  /** What the chains mean: every state of every chain. */
  datatype Histories = Histories(beta: seq<real>, sigma: seq<real>, states: seq<seq<State>>)

  predicate Shaped(s: Store) {
    s.temps > 0 && |s.lengthOnDisk| == |s.beta| == |s.sigma| == |s.cache| == |s.files| * s.temps
  }

  predicate Cold(s: Store, id: nat)
    requires s.temps > 0
  {
    id % s.temps == 0
  }

  function StackOf(s: Store, id: nat): nat
    requires s.temps > 0
  {
    id / s.temps
  }

  lemma StackInRange(s: Store, id: nat)
    requires Shaped(s) && id < |s.cache|
    ensures StackOf(s, id) < |s.files|
  {
    if StackOf(s, id) >= |s.files| {
      Multiples(|s.files|, StackOf(s, id), s.temps);
    }
  }

  lemma ColdApart(s: Store, id: nat, other: nat)
    requires s.temps > 0 && Cold(s, id) && Cold(s, other) && StackOf(s, id) == StackOf(s, other)
    ensures id == other
  {
  }

  function Last(states: seq<State>): State
    requires states != []
  {
    states[|states| - 1]
  }

  function SetLast(states: seq<State>, state: State): (r: seq<State>)
    requires states != []
    ensures |r| == |states| && r[..|r| - 1] == states[..|states| - 1] && Last(r) == state
  {
    states[|states| - 1 := state]
  }

  /** What append adds: the proposal, or the last state once more. */
  function Next(last: State, sample: Sample, energy: Energy, sigma: real, beta: real, exp: real -> real, draw: real): State {
    var proposal := State(sample, energy, sigma, beta, false, NoAttempt);
    if AcceptProposal(proposal, last, beta, exp, draw) then proposal.(accepted := true)
    else last.(accepted := false, swapType := NoAttempt)
  }

  /** What swap leaves in the higher and in the lower of the two chains. */
  function SwapHigh(high: State, low: State, swapped: bool): State {
    if swapped then high.(sample := low.sample, energy := low.energy, accepted := low.accepted) else high
  }

  function SwapLow(high: State, low: State, swapped: bool): State {
    if swapped then low.(sample := high.sample, energy := high.energy, accepted := high.accepted, swapType := Accepted)
    else low.(swapType := Rejected)
  }

  function Higher(id1: nat, id2: nat): nat { if id1 < id2 then id2 else id1 }

  function Lower(id1: nat, id2: nat): nat { if id2 < id1 then id2 else id1 }

  // --------------------------------------------------------------- the operations

  datatype Op =
    | Initialise(id: nat, sample: Sample, energy: Energy, newSigma: real, newBeta: real)
    | Append(id: nat, sample: Sample, energy: Energy, draw: real, flushed: bool)
    | Swap(id1: nat, id2: nat, draw: real)
    | SetSigma(id: nat, newSigma: real)
    | SetBeta(id: nat, newBeta: real)
    | Flush(id: nat)

  /** The chains exist; a chain that is appended to or swapped has been initialised. */
  predicate Enabled(states: seq<seq<State>>, op: Op) {
    match op
    case Append(id, _, _, _, _) => id < |states| && states[id] != []
    case Swap(id1, id2, _) => id1 < |states| && id2 < |states| && states[id1] != [] && states[id2] != []
    case _ => op.id < |states|
  }

  /** flushToDisk: all but the newest state leave the cache, and those of a cold chain are written. */
  function FlushOne(s: Store, id: nat): (s': Store)
    requires Shaped(s) && id < |s.cache|
    ensures Shaped(s') && |s'.cache| == |s.cache| && s'.temps == s.temps
  {
    StackInRange(s, id);
    var cache, stack := s.cache[id], StackOf(s, id);
    if cache == [] then s else
      s.(files := if Cold(s, id) then s.files[stack := s.files[stack] + cache[..|cache| - 1]] else s.files,
         lengthOnDisk := s.lengthOnDisk[id := s.lengthOnDisk[id] + |cache| - 1],
         cache := s.cache[id := [Last(cache)]])
  }

  /** The first n chains. */
  function FlushFirst(s: Store, n: nat): (s': Store)
    requires Shaped(s) && n <= |s.cache|
    ensures Shaped(s') && |s'.cache| == |s.cache| && s'.temps == s.temps
  {
    if n == 0 then s else FlushOne(FlushFirst(s, n - 1), n - 1)
  }

  function Push(s: Store, id: nat, state: State): (s': Store)
    requires Shaped(s) && id < |s.cache|
    ensures Shaped(s')
  {
    s.(cache := s.cache[id := s.cache[id] + [state]])
  }

  /** The new caches, one after the other as the source assigns them. */
  function SwapLast(states: seq<seq<State>>, high: nat, low: nat, swapped: bool): (r: seq<seq<State>>)
    requires high < |states| && low < |states| && states[high] != [] && states[low] != []
    ensures |r| == |states|
  {
    var (h, l) := (Last(states[high]), Last(states[low]));
    var first := states[high := SetLast(states[high], SwapHigh(h, l, swapped))];
    first[low := SetLast(first[low], SwapLow(h, l, swapped))]
  }

  lemma RejectedOnlyMarks(states: seq<seq<State>>, high: nat, low: nat)
    requires high < |states| && low < |states| && states[high] != [] && states[low] != []
    ensures SwapLast(states, high, low, false)
            == states[low := SetLast(states[low], Last(states[low]).(swapType := Rejected))]
  {
    assert SetLast(states[high], Last(states[high])) == states[high];
    assert states[high := states[high]] == states;
  }

  function Swaps(states: seq<seq<State>>, beta: seq<real>, id1: nat, id2: nat, exp: real -> real, draw: real): bool
    requires id1 < |states| == |beta| && id2 < |states| && states[id1] != [] && states[id2] != []
  {
    var (high, low) := (Higher(id1, id2), Lower(id1, id2));
    AcceptSwap(Last(states[high]), Last(states[low]), beta[high], beta[low], exp, draw)
  }

  function Step(s: Store, op: Op, exp: real -> real): (s': Store)
    requires Shaped(s) && Enabled(s.cache, op)
    ensures Shaped(s')
  {
    match op
    case Initialise(id, sample, energy, newSigma, newBeta) =>
      var s1 := s.(sigma := s.sigma[id := newSigma], beta := s.beta[id := newBeta]);
      Push(s1, id, State(sample, energy, newSigma, newBeta, true, NoAttempt))
    case Append(id, sample, energy, draw, flushed) =>
      var s1 := Push(s, id, Next(Last(s.cache[id]), sample, energy, s.sigma[id], s.beta[id], exp, draw));
      if flushed then FlushFirst(s1, |s1.cache|) else s1
    case Swap(id1, id2, draw) =>
      s.(cache := SwapLast(s.cache, Higher(id1, id2), Lower(id1, id2), Swaps(s.cache, s.beta, id1, id2, exp, draw)))
    case SetSigma(id, newSigma) => s.(sigma := s.sigma[id := newSigma])
    case SetBeta(id, newBeta) => s.(beta := s.beta[id := newBeta])
    case Flush(id) => FlushOne(s, id)
  }

  /** The same on plain histories: append adds one state, swap rewrites the newest two, flushing does nothing. */
  function IdealStep(h: Histories, op: Op, exp: real -> real): (h': Histories)
    requires |h.beta| == |h.sigma| == |h.states| && Enabled(h.states, op)
    ensures |h'.beta| == |h'.sigma| == |h'.states| == |h.states|
  {
    match op
    case Initialise(id, sample, energy, newSigma, newBeta) =>
      Histories(h.beta[id := newBeta], h.sigma[id := newSigma],
                h.states[id := h.states[id] + [State(sample, energy, newSigma, newBeta, true, NoAttempt)]])
    case Append(id, sample, energy, draw, _) =>
      var next := Next(Last(h.states[id]), sample, energy, h.sigma[id], h.beta[id], exp, draw);
      h.(states := h.states[id := h.states[id] + [next]])
    case Swap(id1, id2, draw) =>
      h.(states := SwapLast(h.states, Higher(id1, id2), Lower(id1, id2), Swaps(h.states, h.beta, id1, id2, exp, draw)))
    case SetSigma(id, newSigma) => h.(sigma := h.sigma[id := newSigma])
    case SetBeta(id, newBeta) => h.(beta := h.beta[id := newBeta])
    case Flush(_) => h
  }

  // ------------------------------------------------------------------ refinement

  /** One chain: what has left the cache and the cache are the history, and a cold chain's file has what left. */
  ghost predicate Holds(s: Store, states: seq<State>, id: nat)
    requires Shaped(s) && id < |s.cache|
  {
    && s.lengthOnDisk[id] + |s.cache[id]| == |states|
    && s.cache[id] == states[s.lengthOnDisk[id]..]
    && (states != [] ==> s.cache[id] != [])
    && (Cold(s, id) ==> StackOf(s, id) < |s.files| && s.files[StackOf(s, id)] == states[..s.lengthOnDisk[id]])
  }

  ghost predicate Represents(s: Store, h: Histories) {
    && Shaped(s)
    && |h.states| == |s.cache| && h.beta == s.beta && h.sigma == s.sigma
    && forall id | 0 <= id < |s.cache| :: Holds(s, h.states[id], id)
  }

  /** Nothing that was written changes. */
  ghost predicate FilesGrow(s: Store, s': Store) {
    |s.files| == |s'.files| && forall k | 0 <= k < |s.files| :: s.files[k] <= s'.files[k]
  }

  lemma FlushOneKeeps(s: Store, h: Histories, id: nat)
    requires Represents(s, h) && id < |s.cache|
    ensures Represents(FlushOne(s, id), h) && FilesGrow(s, FlushOne(s, id))
  {
    var s' := FlushOne(s, id);
    StackInRange(s, id);
    forall other | 0 <= other < |s.cache|
      ensures Holds(s', h.states[other], other)
    {
      assert Holds(s, h.states[other], other);
      if other != id && Cold(s, id) && Cold(s, other) && StackOf(s, id) == StackOf(s, other) {
        ColdApart(s, id, other);
      }
    }
  }

  lemma {:induction false} FlushFirstKeeps(s: Store, h: Histories, n: nat)
    requires Represents(s, h) && n <= |s.cache|
    ensures Represents(FlushFirst(s, n), h) && FilesGrow(s, FlushFirst(s, n))
  {
    if n > 0 {
      FlushFirstKeeps(s, h, n - 1);
      FlushOneKeeps(FlushFirst(s, n - 1), h, n - 1);
    }
  }

  lemma PushKeeps(s: Store, h: Histories, id: nat, state: State)
    requires Represents(s, h) && id < |s.cache|
    ensures Represents(Push(s, id, state), h.(states := h.states[id := h.states[id] + [state]]))
    ensures FilesGrow(s, Push(s, id, state))
  {
  }

  /** The newest state is in the cache. */
  lemma SameLast(s: Store, h: Histories, id: nat)
    requires Represents(s, h) && id < |s.cache|
    ensures (s.cache[id] != [] <==> h.states[id] != []) && (s.cache[id] != [] ==> Last(s.cache[id]) == Last(h.states[id]))
  {
  }

  lemma SetLastKeeps(s: Store, h: Histories, id: nat, state: State)
    requires Represents(s, h) && id < |s.cache| && s.cache[id] != []
    ensures h.states[id] != []
    ensures Represents(s.(cache := s.cache[id := SetLast(s.cache[id], state)]),
                       h.(states := h.states[id := SetLast(h.states[id], state)]))
  {
  }

  lemma SwapKeeps(s: Store, h: Histories, high: nat, low: nat, swapped: bool)
    requires Represents(s, h) && high < |s.cache| && low < |s.cache| && s.cache[high] != [] && s.cache[low] != []
    ensures h.states[high] != [] && h.states[low] != []
    ensures Represents(s.(cache := SwapLast(s.cache, high, low, swapped)),
                       h.(states := SwapLast(h.states, high, low, swapped)))
  {
    SameLast(s, h, high);
    SameLast(s, h, low);
    var (newHigh, newLow) := (SwapHigh(Last(s.cache[high]), Last(s.cache[low]), swapped),
                              SwapLow(Last(s.cache[high]), Last(s.cache[low]), swapped));
    SetLastKeeps(s, h, high, newHigh);
    var (s1, h1) := (s.(cache := s.cache[high := SetLast(s.cache[high], newHigh)]),
                     h.(states := h.states[high := SetLast(h.states[high], newHigh)]));
    SetLastKeeps(s1, h1, low, newLow);
  }

  /** Every operation, with or without a flush, does to the store what it does to plain histories, and changes nothing
      that has been written. */
  lemma StepRefines(s: Store, h: Histories, op: Op, exp: real -> real)
    requires Represents(s, h) && Enabled(h.states, op)
    ensures Enabled(s.cache, op)
    ensures Represents(Step(s, op, exp), IdealStep(h, op, exp)) && FilesGrow(s, Step(s, op, exp))
  {
    hide Holds;
    match op
    case Initialise(id, sample, energy, newSigma, newBeta) =>
      var (s1, h1) := (s.(sigma := s.sigma[id := newSigma], beta := s.beta[id := newBeta]),
                       h.(sigma := h.sigma[id := newSigma], beta := h.beta[id := newBeta]));
      SettingsKeep(s, h, s1, h1);
      PushKeeps(s1, h1, id, State(sample, energy, newSigma, newBeta, true, NoAttempt));
    case Append(id, sample, energy, draw, flushed) =>
      SameLast(s, h, id);
      var next := Next(Last(s.cache[id]), sample, energy, s.sigma[id], s.beta[id], exp, draw);
      hide Next;
      PushKeeps(s, h, id, next);
      if flushed {
        FlushFirstKeeps(Push(s, id, next), h.(states := h.states[id := h.states[id] + [next]]), |s.cache|);
      }
    case Swap(id1, id2, draw) =>
      SameLast(s, h, id1);
      SameLast(s, h, id2);
      hide SwapLast;
      SwapKeeps(s, h, Higher(id1, id2), Lower(id1, id2), Swaps(s.cache, s.beta, id1, id2, exp, draw));
    case SetSigma(id, newSigma) =>
      SettingsKeep(s, h, s.(sigma := s.sigma[id := newSigma]), h.(sigma := h.sigma[id := newSigma]));
    case SetBeta(id, newBeta) =>
      SettingsKeep(s, h, s.(beta := s.beta[id := newBeta]), h.(beta := h.beta[id := newBeta]));
    case Flush(id) =>
      FlushOneKeeps(s, h, id);
  }

  lemma SettingsKeep(s: Store, h: Histories, s': Store, h': Histories)
    requires Represents(s, h) && s'.beta == h'.beta && s'.sigma == h'.sigma && |s'.beta| == |s'.sigma| == |s.beta|
    requires s' == s.(beta := s'.beta, sigma := s'.sigma) && h' == h.(beta := h'.beta, sigma := h'.sigma)
    ensures Represents(s', h')
  {
  }

  // ------------------------------------------------------------------------ runs

  /** The operations are enabled one after the other. */
  ghost predicate Possible(h: Histories, ops: seq<Op>, exp: real -> real)
    decreases |ops|
  {
    && |h.beta| == |h.sigma| == |h.states|
    && (ops != [] ==> Enabled(h.states, ops[0]) && Possible(IdealStep(h, ops[0], exp), ops[1..], exp))
  }

  ghost function IdealRun(h: Histories, ops: seq<Op>, exp: real -> real): Histories
    requires Possible(h, ops, exp)
    decreases |ops|
  {
    if ops == [] then h else IdealRun(IdealStep(h, ops[0], exp), ops[1..], exp)
  }

  ghost function Run(s: Store, h: Histories, ops: seq<Op>, exp: real -> real): Store
    requires Represents(s, h) && Possible(h, ops, exp)
    decreases |ops|
  {
    if ops == [] then s else
      StepRefines(s, h, ops[0], exp);
      Run(Step(s, ops[0], exp), IdealStep(h, ops[0], exp), ops[1..], exp)
  }

  /** Any run of any length: the store stands for the plain histories of the same run. */
  lemma {:induction false} RunRefines(s: Store, h: Histories, ops: seq<Op>, exp: real -> real)
    requires Represents(s, h) && Possible(h, ops, exp)
    ensures Represents(Run(s, h, ops, exp), IdealRun(h, ops, exp))
    ensures FilesGrow(s, Run(s, h, ops, exp))
    decreases |ops|
  {
    if ops != [] {
      StepRefines(s, h, ops[0], exp);
      RunRefines(Step(s, ops[0], exp), IdealStep(h, ops[0], exp), ops[1..], exp);
    }
  }

  /** The same operations with other flushes. */
  ghost predicate SameButFlushes(ops: seq<Op>, others: seq<Op>)
    decreases |ops| + |others|
  {
    if ops != [] && ops[0].Flush? then SameButFlushes(ops[1..], others)
    else if others != [] && others[0].Flush? then SameButFlushes(ops, others[1..])
    else if ops == [] || others == [] then ops == others
    else (ops[0] == others[0] || (ops[0].Append? && others[0].Append? && ops[0] == others[0].(flushed := ops[0].flushed)))
         && SameButFlushes(ops[1..], others[1..])
  }

  /** When and how often the caches are flushed makes no difference to the histories. */
  lemma {:induction false} FlushesDoNotMatter(h: Histories, ops: seq<Op>, others: seq<Op>, exp: real -> real)
    requires Possible(h, ops, exp) && Possible(h, others, exp) && SameButFlushes(ops, others)
    ensures IdealRun(h, ops, exp) == IdealRun(h, others, exp)
    decreases |ops| + |others|
  {
    if ops != [] && ops[0].Flush? {
      FlushesDoNotMatter(h, ops[1..], others, exp);
    } else if others != [] && others[0].Flush? {
      FlushesDoNotMatter(h, ops, others[1..], exp);
    } else if ops != [] {
      FlushesDoNotMatter(IdealStep(h, ops[0], exp), ops[1..], others[1..], exp);
    }
  }

  /** What a reader of the files and of the object sees of one chain at any time. */
  lemma ChainIsHistory(s: Store, h: Histories, id: nat)
    requires Represents(s, h) && id < |s.cache|
    ensures s.lengthOnDisk[id] + |s.cache[id]| == |h.states[id]|
    ensures Cold(s, id) ==> StackOf(s, id) < |s.files| && s.files[StackOf(s, id)] + s.cache[id] == h.states[id]
  {
  }

  /** Once all chains are flushed, as the destructor does, a cold chain's file has all but its newest state, which is never
      written. */
  lemma AllFlushed(s: Store, h: Histories, id: nat)
    requires Represents(s, h) && id < |s.cache| && Cold(s, id)
    ensures var files := FlushFirst(s, |s.cache|).files;
            && StackOf(s, id) < |files|
            && files[StackOf(s, id)] == if h.states[id] == [] then [] else h.states[id][..|h.states[id]| - 1]
  {
    var s' := FlushFirst(s, |s.cache|);
    FlushFirstKeeps(s, h, |s.cache|);
    ChainIsHistory(s', h, id);
    FlushedShort(s, h, |s.cache|, id);
  }

  lemma {:induction false} FlushedShort(s: Store, h: Histories, n: nat, id: nat)
    requires Represents(s, h) && id < n <= |s.cache|
    ensures |FlushFirst(s, n).cache[id]| == if h.states[id] == [] then 0 else 1
  {
    FlushFirstKeeps(s, h, n - 1);
    SameLast(FlushFirst(s, n - 1), h, n - 1);
    if id < n - 1 {
      FlushedShort(s, h, n - 1, id);
    }
  }

  // ---------------------------------------------------------- samples and energies

  ghost predicate Paired(h: Histories, likelihood: Sample -> Energy) {
    forall id, k | 0 <= id < |h.states| && 0 <= k < |h.states[id]| ::
      h.states[id][k].energy == likelihood(h.states[id][k].sample)
  }

  /** The operation supplies the energy of its sample. */
  ghost predicate Supplies(op: Op, likelihood: Sample -> Energy) {
    (op.Append? || op.Initialise?) ==> op.energy == likelihood(op.sample)
  }

  lemma PairedStep(h: Histories, op: Op, exp: real -> real, likelihood: Sample -> Energy)
    requires |h.beta| == |h.sigma| == |h.states| && Enabled(h.states, op) && Paired(h, likelihood) && Supplies(op, likelihood)
    ensures Paired(IdealStep(h, op, exp), likelihood)
  {
  }

  lemma {:induction false} PairedRun(h: Histories, ops: seq<Op>, exp: real -> real, likelihood: Sample -> Energy)
    requires Possible(h, ops, exp) && Paired(h, likelihood) && forall op | op in ops :: Supplies(op, likelihood)
    ensures Paired(IdealRun(h, ops, exp), likelihood)
    decreases |ops|
  {
    if ops != [] {
      PairedStep(h, ops[0], exp, likelihood);
      PairedRun(IdealStep(h, ops[0], exp), ops[1..], exp, likelihood);
    }
  }

  /** Hence every state in a cache or a file is paired. */
  lemma StorePaired(s: Store, h: Histories, likelihood: Sample -> Energy, id: nat, state: State)
    requires Represents(s, h) && Paired(h, likelihood) && id < |s.cache|
    requires state in s.cache[id] || (Cold(s, id) && StackOf(s, id) < |s.files| && state in s.files[StackOf(s, id)])
    ensures state.energy == likelihood(state.sample)
  {
    assert Holds(s, h.states[id], id);
  }

  /** An accepted swap exchanges what the two newest states say of the chain and leaves each its width and temperature;
      a rejected one changes only the mark on the lower; no earlier state and no other chain changes. */
  lemma SwapExchanges(states: seq<seq<State>>, high: nat, low: nat, swapped: bool)
    requires low < high < |states| && states[high] != [] && states[low] != []
    ensures var r := SwapLast(states, high, low, swapped);
            var (h, l, h', l') := (Last(states[high]), Last(states[low]), Last(r[high]), Last(r[low]));
            && (forall id | 0 <= id < |states| && id != high && id != low :: r[id] == states[id])
            && |r[high]| == |states[high]| && r[high][..|r[high]| - 1] == states[high][..|r[high]| - 1]
            && |r[low]| == |states[low]| && r[low][..|r[low]| - 1] == states[low][..|r[low]| - 1]
            && (h'.sigma, h'.beta, h'.swapType, l'.sigma, l'.beta) == (h.sigma, h.beta, h.swapType, l.sigma, l.beta)
            && l'.swapType == (if swapped then Accepted else Rejected)
            && multiset{(h'.sample, h'.energy, h'.accepted), (l'.sample, l'.energy, l'.accepted)}
               == multiset{(h.sample, h.energy, h.accepted), (l.sample, l.energy, l.accepted)}
            && (h'.sample, h'.energy, h'.accepted)
               == if swapped then (l.sample, l.energy, l.accepted) else (h.sample, h.energy, h.accepted)
  {
  }

  // --------------------------------------------------------------- what is stored

  /** append, for a draw from [0, 1): the history of the chain grows by one state and nothing else changes. Below the chance
      of the proposal that state is the proposal, under the chain's own width and inverse temperature; otherwise it is the
      state before once more. */
  lemma AppendStores(h: Histories, op: Op, exp: real -> real)
    requires |h.beta| == |h.sigma| == |h.states| && op.Append? && Enabled(h.states, op) && 0.0 <= op.draw < 1.0
    ensures var (h', before) := (IdealStep(h, op, exp), h.states[op.id]);
            var (after, last) := (h'.states[op.id], Last(before));
            && h'.beta == h.beta && h'.sigma == h.sigma
            && (forall id | 0 <= id < |h.states| && id != op.id :: h'.states[id] == h.states[id])
            && |after| == |before| + 1 && after[..|before|] == before
            && Last(after) == if op.draw < ProposalChance(last.energy, op.energy, h.beta[op.id], exp)
                              then State(op.sample, op.energy, h.sigma[op.id], h.beta[op.id], true, NoAttempt)
                              else State(last.sample, last.energy, last.sigma, last.beta, false, NoAttempt)
  {
    var (last, beta) := (Last(h.states[op.id]), h.beta[op.id]);
    AcceptProposalIff(State(op.sample, op.energy, h.sigma[op.id], beta, false, NoAttempt), last, beta, exp, op.draw);
    hide ProposalChance, AcceptProposal;
  }

  /** swap, for a draw from [0, 1): below the chance of the swap the newest states of the two chains exchange sample, energy
      and acceptance; the mark of the colder chain says which, and nothing else changes. */
  lemma SwapStores(h: Histories, op: Op, exp: real -> real)
    requires |h.beta| == |h.sigma| == |h.states| && op.Swap? && Enabled(h.states, op) && 0.0 <= op.draw < 1.0
    requires op.id1 != op.id2
    ensures var (h', high, low) := (IdealStep(h, op, exp), if op.id1 > op.id2 then op.id1 else op.id2,
                                    if op.id1 > op.id2 then op.id2 else op.id1);
            && h'.beta == h.beta && h'.sigma == h.sigma
            && (forall id | 0 <= id < |h.states| && id != high && id != low :: h'.states[id] == h.states[id])
            && |h'.states[high]| == |h.states[high]| && |h'.states[low]| == |h.states[low]|
            && h'.states[high][..|h.states[high]| - 1] == h.states[high][..|h.states[high]| - 1]
            && h'.states[low][..|h.states[low]| - 1] == h.states[low][..|h.states[low]| - 1]
            && var (u, l) := (Last(h.states[high]), Last(h.states[low]));
               var swapped := op.draw < SwapChance(u.energy, l.energy, h.beta[high], h.beta[low], exp);
               var (x, y) := if swapped then (l, u) else (u, l);
               && Last(h'.states[high]) == State(x.sample, x.energy, u.sigma, u.beta, x.accepted, u.swapType)
               && Last(h'.states[low])
                  == State(y.sample, y.energy, l.sigma, l.beta, y.accepted, if swapped then Accepted else Rejected)
  {
    var (high, low) := (Higher(op.id1, op.id2), Lower(op.id1, op.id2));
    var (u, l) := (Last(h.states[high]), Last(h.states[low]));
    AcceptSwapIff(u, l, h.beta[high], h.beta[low], exp, op.draw);
    hide SwapChance, AcceptSwap;
    var swapped := Swaps(h.states, h.beta, op.id1, op.id2, exp, op.draw);
    SwapExchanges(h.states, high, low, swapped);
  }
}
