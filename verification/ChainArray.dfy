/** The chain array as an object (infer/chainarray.cpp). */
module ChainArrays {
  import opened RealMath
  import opened Acceptance
  import opened ChainStore

  const UINT_SIZE: nat := 0x1_0000_0000
  const FLUSH_SECONDS: nat := 10

  /** A duration in milliseconds as whole seconds, truncated and then converted to unsigned. */
  function Seconds(duration: int): (secs: nat)
    ensures 0 <= duration < 1000 * UINT_SIZE ==> 1000 * secs <= duration < 1000 * (secs + 1)
  {
    (if duration >= 0 then duration / 1000 else -(-duration / 1000)) % UINT_SIZE
  }

  /** `history` records every state of every chain. */
  class ChainArray {
    const nStacks: nat
    const nTemps: nat
    const exp: real -> real
    var lengthOnDisk: seq<nat>
    var beta: seq<real>
    var sigma: seq<real>
    var cache: seq<seq<State>>
    var files: seq<seq<State>>
    var lastFlushTime: int
    ghost var history: Histories

    function View(): Store
      reads this
    {
      Store(nTemps, lengthOnDisk, beta, sigma, cache, files)
    }

    ghost predicate Valid()
      reads this
    {
      |files| == nStacks && Represents(View(), history)
    }

    constructor (nStacks: nat, nTemps: nat, exp: real -> real, now: int)
      requires nTemps > 0
      ensures Valid() && this.nStacks == nStacks && this.nTemps == nTemps && this.exp == exp
      ensures history == Histories(beta, sigma, seq(nStacks * nTemps, i => []))
    {
      this.nStacks, this.nTemps, this.exp, this.lastFlushTime := nStacks, nTemps, exp, now;
      var chains := nStacks * nTemps;
      lengthOnDisk, cache, files := seq(chains, i => 0), seq(chains, i => []), seq(nStacks, i => []);
      beta, sigma := seq(chains, i => 0.0), seq(chains, i => 0.0);
      history := Histories(seq(chains, i => 0.0), seq(chains, i => 0.0), seq(chains, i => []));
      new;
      forall id | 0 <= id < |cache|
        ensures Holds(View(), history.states[id], id)
      {
        StackInRange(View(), id);
      }
    }

    method Length(id: nat) returns (length: nat)
      requires Valid() && id < |cache|
      ensures length == |history.states[id]|
    {
      length := lengthOnDisk[id] + |cache[id]|;
      ChainIsHistory(View(), history, id);
    }

    method LastState(id: nat) returns (state: State)
      requires Valid() && id < |cache| && history.states[id] != []
      ensures state == Last(history.states[id])
    {
      SameLast(View(), history, id);
      state := cache[id][|cache[id]| - 1];
    }

    method SetSigma(id: nat, newSigma: real)
      requires Valid() && id < |cache|
      modifies this`sigma, this`history
      ensures Valid() && View() == Step(old(View()), Op.SetSigma(id, newSigma), exp)
      ensures history == IdealStep(old(history), Op.SetSigma(id, newSigma), exp)
    {
      StepRefines(View(), history, Op.SetSigma(id, newSigma), exp);
      sigma := sigma[id := newSigma];
      history := history.(sigma := history.sigma[id := newSigma]);
    }

    method SetBeta(id: nat, newBeta: real)
      requires Valid() && id < |cache|
      modifies this`beta, this`history
      ensures Valid() && View() == Step(old(View()), Op.SetBeta(id, newBeta), exp)
      ensures history == IdealStep(old(history), Op.SetBeta(id, newBeta), exp)
    {
      StepRefines(View(), history, Op.SetBeta(id, newBeta), exp);
      beta := beta[id := newBeta];
      history := history.(beta := history.beta[id := newBeta]);
    }

    method FlushToDisk(id: nat)
      requires Valid() && id < |cache|
      modifies this`lengthOnDisk, this`cache, this`files
      ensures Valid() && View() == FlushOne(old(View()), id) && FilesGrow(old(View()), View())
    {
      FlushOneKeeps(View(), history, id);
      StackInRange(View(), id);
      var cacheLength := |cache[id]|;
      if cacheLength == 0 {
        return;
      }
      if id % nTemps == 0 {
        files := files[id / nTemps := files[id / nTemps] + cache[id][..cacheLength - 1]];
      }
      lengthOnDisk := lengthOnDisk[id := lengthOnDisk[id] + cacheLength - 1];
      var recent := cache[id][cacheLength - 1];
      cache := cache[id := [recent]];
    }

    method FlushAll()
      requires Valid()
      modifies this`lengthOnDisk, this`cache, this`files
      ensures Valid() && View() == FlushFirst(old(View()), |old(cache)|) && FilesGrow(old(View()), View())
    {
      ghost var before := View();
      for i := 0 to nStacks * nTemps
        invariant Valid() && |cache| == |before.cache| && View() == FlushFirst(before, i) && FilesGrow(before, View())
      {
        FlushToDisk(i);
      }
    }

    method Initialise(id: nat, sample: Sample, energy: Energy, newSigma: real, newBeta: real)
      requires Valid() && id < |cache|
      modifies this`sigma, this`beta, this`cache, this`history
      ensures Valid() && View() == Step(old(View()), Op.Initialise(id, sample, energy, newSigma, newBeta), exp)
      ensures history == IdealStep(old(history), Op.Initialise(id, sample, energy, newSigma, newBeta), exp)
    {
      ghost var op := Op.Initialise(id, sample, energy, newSigma, newBeta);
      StepRefines(View(), history, op, exp);
      ghost var h := IdealStep(history, op, exp);
      sigma := sigma[id := newSigma];
      beta := beta[id := newBeta];
      cache := cache[id := cache[id] + [State(sample, energy, sigma[id], beta[id], true, NoAttempt)]];
      history := h;
    }

    /** The draw decides the acceptance test and the clock whether everything is flushed. */
    method Append(id: nat, sample: Sample, energy: Energy, draw: real, now: int) returns (accepted: bool)
      requires Valid() && id < |cache| && history.states[id] != []
      modifies this`lengthOnDisk, this`cache, this`files, this`lastFlushTime, this`history
      ensures var op := Op.Append(id, sample, energy, draw, Seconds(now - old(lastFlushTime)) >= FLUSH_SECONDS);
              && Enabled(old(cache), op) && View() == Step(old(View()), op, exp) && history == IdealStep(old(history), op, exp)
      ensures Valid() && FilesGrow(old(View()), View()) && accepted == Last(history.states[id]).accepted
      ensures lastFlushTime == if Seconds(now - old(lastFlushTime)) >= FLUSH_SECONDS then now else old(lastFlushTime)
    {
      var secs := Seconds(now - lastFlushTime);
      ghost var op := Op.Append(id, sample, energy, draw, secs >= FLUSH_SECONDS);
      StepRefines(View(), history, op, exp);
      ghost var h := IdealStep(history, op, exp);

      var newState := State(sample, energy, sigma[id], beta[id], false, NoAttempt);
      var last := LastState(id);
      accepted := AcceptProposal(newState, last, beta[id], exp, draw);
      var next := if accepted then newState else last;
      next := next.(accepted := accepted, swapType := NoAttempt);
      SameLast(View(), history, id);
      PushKeeps(View(), history, id, next);
      assert h == history.(states := history.states[id := history.states[id] + [next]]);
      assert next == Next(last, sample, energy, sigma[id], beta[id], exp, draw);
      hide Represents, Next, AcceptProposal, IdealStep;
      cache := cache[id := cache[id] + [next]];
      history := h;
      if secs >= FLUSH_SECONDS {
        lastFlushTime := now;
        FlushAll();
      }
    }

    method Swap(id1: nat, id2: nat, draw: real) returns (swapType: SwapType)
      requires Valid() && id1 < |cache| && id2 < |cache| && history.states[id1] != [] && history.states[id2] != []
      modifies this`cache, this`history
      ensures var op := Op.Swap(id1, id2, draw);
              && Enabled(old(cache), op) && View() == Step(old(View()), op, exp) && history == IdealStep(old(history), op, exp)
      ensures Valid() && (swapType == if Swaps(old(cache), beta, id1, id2, exp, draw) then Accepted else Rejected)
    {
      ghost var op := Op.Swap(id1, id2, draw);
      StepRefines(View(), history, op, exp);
      ghost var h, before := IdealStep(history, op, exp), cache;
      var hId, lId := Higher(id1, id2), Lower(id1, id2);
      var stateh := LastState(hId);
      var statel := LastState(lId);
      var swapped := AcceptSwap(stateh, statel, beta[hId], beta[lId], exp, draw);
      SameLast(View(), history, hId);
      SameLast(View(), history, lId);
      assert swapped == Swaps(cache, beta, id1, id2, exp, draw);
      hide Represents, IdealStep, AcceptSwap, Swaps, SetLast;
      if swapped {
        stateh, statel := stateh.(sample := statel.sample, energy := statel.energy, accepted := statel.accepted),
                          statel.(sample := stateh.sample, energy := stateh.energy, accepted := stateh.accepted);
        statel := statel.(swapType := Accepted);
        cache := cache[hId := SetLast(cache[hId], stateh)];
        cache := cache[lId := SetLast(cache[lId], statel)];
      } else {
        RejectedOnlyMarks(cache, hId, lId);
        statel := statel.(swapType := Rejected);
        cache := cache[lId := SetLast(cache[lId], statel)];
      }
      assert cache == SwapLast(before, hId, lId, swapped);
      hide SwapLast;
      history := h;
      swapType := if swapped then Accepted else Rejected;
    }
  }
}
