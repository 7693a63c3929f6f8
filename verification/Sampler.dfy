/** Which chains of the sampler have a likelihood request outstanding, and which wait to be swapped (infer/sampler.cpp).
    This is the discipline that the job protocol relies on: a batch id is never submitted while it is unanswered. */
module Samplers {

  /** nTemps chains per stack; a lock on a chain makes the next hotter one wait for it. */
  datatype State = State(nTemps: nat, locked: seq<bool>, asked: set<nat>, numOutstanding: int)

  predicate ColdAt(id: nat, nTemps: nat)
    requires nTemps > 0
  {
    id % nTemps == 0
  }

  predicate HotAt(id: nat, nTemps: nat)
    requires nTemps > 0
  {
    id % nTemps == nTemps - 1
  }

  predicate IntervalEnds(length: nat, swapInterval: nat)
    requires swapInterval > 0
  {
    length % swapInterval == 0
  }

  predicate Coldest(s: State, id: nat)
    requires s.nTemps > 0
  {
    ColdAt(id, s.nTemps)
  }

  predicate Hottest(s: State, id: nat)
    requires s.nTemps > 0
  {
    HotAt(id, s.nTemps)
  }

  function Chains(n: nat): (chains: set<nat>)
    ensures forall c: nat :: c in chains <==> c < n
  {
    if n == 0 then {} else Chains(n - 1) + {n - 1}
  }

  /** A chain waits exactly when the next colder one in its stack is locked. */
  predicate WaitsForSwap(s: State, id: nat)
    requires s.nTemps > 0 && id < |s.locked|
  {
    !Coldest(s, id) && id > 0 && s.locked[id - 1]
  }

  /** Every chain either has one request outstanding or waits; no hottest chain is ever locked. */
  ghost predicate Inv(s: State) {
    && s.nTemps > 0 && ColdAt(|s.locked|, s.nTemps)
    && (forall id | 0 <= id < |s.locked| :: id in s.asked <==> !WaitsForSwap(s, id))
    && (forall id | id in s.asked :: id < |s.locked|)
    && (forall id | 0 <= id < |s.locked| && s.locked[id] :: !Hottest(s, id))
    && s.numOutstanding == |s.asked|
  }

  /** Submitting a request for a chain that has none. */
  function Proposed(s: State, id: nat): State
    requires id !in s.asked
  {
    s.(asked := s.asked + {id}, numOutstanding := s.numOutstanding + 1)
  }

  /** Reading the answer of a chain. */
  function Retrieved(s: State, id: nat): State { s.(asked := s.asked - {id}, numOutstanding := s.numOutstanding - 1) }

  datatype Action = SwapAndUnlock | StartCascade | Continue

  /** The decision of step after the chain `id` got its answer and has `length` states. */
  function Decide(s: State, id: nat, length: nat, swapInterval: nat): Action
    requires s.nTemps > 0 && id < |s.locked| && swapInterval > 0
  {
    if s.locked[id] then SwapAndUnlock
    else if Hottest(s, id) && IntervalEnds(length, swapInterval) && s.nTemps > 1 then StartCascade
    else Continue
  }

  /** Where two numbers one apart stand in their stacks. */
  lemma NextInStack(id: nat, nTemps: nat, n: nat)
    requires nTemps > 0 && n % nTemps == 0 && id < n && id % nTemps != nTemps - 1
    ensures id + 1 < n && (id + 1) % nTemps != 0
  {
    var q, r := id / nTemps, id % nTemps;
    assert id + 1 == q * nTemps + (r + 1);
    Remainder(id + 1, nTemps, q, r + 1);
    if id + 1 == n {
      assert false;
    }
  }

  lemma PreviousInStack(id: nat, nTemps: nat)
    requires nTemps > 0 && id % nTemps != 0
    ensures id > 0 && (id - 1) % nTemps != nTemps - 1
  {
    var q, r := id / nTemps, id % nTemps;
    assert id - 1 == q * nTemps + (r - 1);
    Remainder(id - 1, nTemps, q, r - 1);
  }

  lemma Remainder(x: nat, m: nat, q: nat, r: nat)
    requires m > 0 && r < m && x == q * m + r
    ensures x % m == r
  {
    var d := x / m;
    var e := x % m;
    Difference(q, d, m);
    if q > d {
      AtLeast(q - d, m);
    } else if q < d {
      AtLeast(d - q, m);
      Difference(d, q, m);
    }
  }

  lemma Difference(a: int, b: int, m: int)
    ensures (a - b) * m == a * m - b * m
  {
  }

  lemma AtLeast(k: nat, m: nat)
    requires k > 0
    ensures k * m >= m
  {
  }

  /** unlock: the hotter chain proposes again, and the lock moves to the colder one, or the coldest chain goes on. */
  function Unlocked(s: State, id: nat): State
    requires s.nTemps > 0 && id + 1 < |s.locked|
    requires id + 1 !in s.asked && id !in s.asked
  {
    var t := Proposed(s.(locked := s.locked[id := false]), id + 1);
    if !Coldest(s, id) then t.(locked := t.locked[id - 1 := true]) else Proposed(t, id)
  }

  lemma UnlockReady(s: State, id: nat)
    requires Inv(s) && id in s.asked && s.locked[id]
    ensures id + 1 < |s.locked| && !Coldest(s, id + 1) && id + 1 !in s.asked
  {
    NextInStack(id, s.nTemps, |s.locked|);
    assert WaitsForSwap(s, id + 1);
  }

  /** One step for a chain whose request is outstanding. */
  function Stepped(s: State, id: nat, length: nat, swapInterval: nat): State
    requires Inv(s) && id in s.asked && swapInterval > 0
  {
    UnlockReadyIf(s, id);
    var t := Retrieved(s, id);
    match Decide(s, id, length, swapInterval)
    case SwapAndUnlock => Unlocked(t, id)
    case StartCascade => t.(locked := t.locked[id - 1 := true])
    case Continue => Proposed(t, id)
  }

  lemma UnlockReadyIf(s: State, id: nat)
    requires Inv(s) && id in s.asked
    ensures id < |s.locked| && s.nTemps > 0
    ensures s.locked[id] ==> id + 1 < |s.locked| && id + 1 !in s.asked
    ensures s.nTemps > 1 && Hottest(s, id) ==> id > 0
  {
    if s.locked[id] {
      UnlockReady(s, id);
    }
  }

  /** The three things that a step may come to. */
  lemma SteppedIs(s: State, id: nat, length: nat, swapInterval: nat)
    requires Inv(s) && id in s.asked && swapInterval > 0
    ensures s.nTemps > 0 && id < |s.locked|
    ensures s.locked[id] ==> id + 1 < |s.locked| && id + 1 !in s.asked && !Coldest(s, id + 1)
                             && Stepped(s, id, length, swapInterval) == Unlocked(Retrieved(s, id), id)
    ensures !s.locked[id] && Hottest(s, id) && IntervalEnds(length, swapInterval) && s.nTemps > 1 ==>
              id > 0 && Stepped(s, id, length, swapInterval) == Retrieved(s, id).(locked := s.locked[id - 1 := true])
    ensures !s.locked[id] && !(Hottest(s, id) && IntervalEnds(length, swapInterval) && s.nTemps > 1) ==>
              Stepped(s, id, length, swapInterval) == Proposed(Retrieved(s, id), id)
  {
    UnlockReadyIf(s, id);
    if s.locked[id] {
      UnlockReady(s, id);
    }
    hide Inv, Unlocked, Hottest, Coldest, IntervalEnds;
  }

  /** Every step keeps it that each chain has exactly one request outstanding or waits for a swap. */
  lemma StepKeeps(s: State, id: nat, length: nat, swapInterval: nat)
    requires Inv(s) && id in s.asked && swapInterval > 0
    ensures Inv(Stepped(s, id, length, swapInterval))
  {
    match Decide(s, id, length, swapInterval) {
      case SwapAndUnlock =>
        UnlockReady(s, id);
        if !Coldest(s, id) {
          PreviousInStack(id, s.nTemps);
        }
        hide Coldest, Hottest;
        UnlockKeeps(s, id);
      case StartCascade =>
        OneTemperature(id, s.nTemps);
        PreviousInStack(id, s.nTemps);
        assert !Coldest(s, id) && !Hottest(s, id - 1);
        hide Coldest, Hottest;
        LockKeeps(s, id);
      case Continue =>
        assert s.asked - {id} + {id} == s.asked;
    }
  }

  lemma OneTemperature(id: nat, nTemps: nat)
    requires nTemps > 1 && id % nTemps == nTemps - 1
    ensures id % nTemps != 0
  {
  }

  lemma UnlockKeeps(s: State, id: nat)
    requires Inv(s) && id in s.asked && s.locked[id]
    requires id + 1 < |s.locked| && id + 1 !in s.asked && !Coldest(s, id + 1)
    requires !Coldest(s, id) ==> id > 0 && !Hottest(s, id - 1)
    ensures Inv(Unlocked(Retrieved(s, id), id))
  {
    hide Coldest, Hottest;
    var t := Unlocked(Retrieved(s, id), id);
    SameStacks(s, t);
    SameStacks(s, Retrieved(s, id));
    assert t.locked == if Coldest(s, id) then s.locked[id := false] else s.locked[id := false][id - 1 := true];
    assert t.asked == s.asked - {id} + {id + 1} + if Coldest(s, id) then {id} else {};
    hide Unlocked, Retrieved;
    WaitingMoves(s, t, id);
  }

  /** The hotter chain waits no longer, and the unlocked one does unless it is the coldest. */
  lemma WaitingMoves(s: State, t: State, id: nat)
    requires Inv(s) && id in s.asked && s.locked[id] && s.nTemps == t.nTemps
    requires id + 1 < |s.locked| && id + 1 !in s.asked && !Coldest(s, id + 1) && (!Coldest(s, id) ==> id > 0)
    requires t.locked == if Coldest(s, id) then s.locked[id := false] else s.locked[id := false][id - 1 := true]
    requires t.asked == s.asked - {id} + {id + 1} + if Coldest(s, id) then {id} else {}
    ensures forall c | 0 <= c < |t.locked| :: c in t.asked <==> !WaitsForSwap(t, c)
  {
    hide Coldest, Hottest;
    SameStacks(s, t);
    forall c | 0 <= c < |t.locked|
      ensures c in t.asked <==> !WaitsForSwap(t, c)
    {
      assert c in s.asked <==> !WaitsForSwap(s, c);
    }
  }

  lemma SameStacks(s: State, t: State)
    requires s.nTemps == t.nTemps > 0
    ensures forall id :: Coldest(s, id) == Coldest(t, id) && Hottest(s, id) == Hottest(t, id)
  {
  }

  lemma LockKeeps(s: State, id: nat)
    requires Inv(s) && id in s.asked && id > 0 && !Coldest(s, id) && !Hottest(s, id - 1)
    ensures Inv(Retrieved(s, id).(locked := s.locked[id - 1 := true]))
  {
  }

  lemma NoChains()
    ensures Chains(0) == {}
  {
  }

  lemma OneMoreChain(n: nat, c: nat)
    requires c < n
    ensures c !in Chains(n) - Chains(c + 1)
    ensures Chains(n) - Chains(c) == Chains(n) - Chains(c + 1) + {c}
  {
  }

  lemma FreshHolds(s: State)
    requires s.nTemps > 0 && ColdAt(|s.locked|, s.nTemps) && s.asked == Chains(|s.locked|)
    requires s.numOutstanding == |s.asked| && forall id | 0 <= id < |s.locked| :: !s.locked[id]
    ensures Inv(s)
  {
  }

  /** What a step writes. A chain below a waiting one has had its swap: the hotter chain goes on, and so does the coldest of a
      stack, while any other chain hands the lock down. The hottest chain of several starts a cascade whenever the number of
      its states is a multiple of the interval. Any other chain goes on. */
  lemma StepWrites(s: State, id: nat, length: nat, swapInterval: nat)
    requires Inv(s) && id in s.asked && swapInterval > 0
    ensures var (n, t) := (s.nTemps, Stepped(s, id, length, swapInterval));
            && n > 0 && id < |s.locked|
            && if s.locked[id] then
                 && id + 1 < |s.locked| && id + 1 !in s.asked
                 && (if id % n == 0 then t == s.(locked := s.locked[id := false], asked := s.asked + {id + 1},
                                                 numOutstanding := s.numOutstanding + 1)
                     else id > 0 && t == s.(locked := s.locked[id := false][id - 1 := true], asked := s.asked - {id} + {id + 1}))
               else if id % n == n - 1 && n > 1 && length % swapInterval == 0 then
                 id > 0 && t == s.(locked := s.locked[id - 1 := true], asked := s.asked - {id},
                                   numOutstanding := s.numOutstanding - 1)
               else t == s
  {
    SteppedIs(s, id, length, swapInterval);
    if s.locked[id] {
      UnlockWrites(s, id);
    }
    assert s.asked - {id} + {id} == s.asked;
    hide Inv, Stepped, Unlocked, Decide;
  }

  lemma UnlockWrites(s: State, id: nat)
    requires s.nTemps > 0 && id + 1 < |s.locked| && id + 1 !in s.asked && id in s.asked && (id % s.nTemps != 0 ==> id > 0)
    ensures Unlocked(Retrieved(s, id), id)
            == if id % s.nTemps == 0 then s.(locked := s.locked[id := false], asked := s.asked + {id + 1},
                                             numOutstanding := s.numOutstanding + 1)
               else s.(locked := s.locked[id := false][id - 1 := true], asked := s.asked - {id} + {id + 1})
  {
    assert s.asked - {id} + {id + 1} + {id} == s.asked + {id + 1};
  }

  // -------------------------------------------------------------------- cascades

  /** A chain's answer is read when it has so many states. */
  datatype Visit = Visit(id: nat, length: nat)

  ghost predicate Possible(s: State, visits: seq<Visit>, swapInterval: nat)
    decreases |visits|
  {
    && swapInterval > 0 && Inv(s)
    && (visits != [] ==>
          && visits[0].id in s.asked
          && Possible(Stepped(s, visits[0].id, visits[0].length, swapInterval), visits[1..], swapInterval))
  }

  ghost function End(s: State, visits: seq<Visit>, swapInterval: nat): State
    requires Possible(s, visits, swapInterval)
    decreases |visits|
  {
    if visits == [] then s
    else End(Stepped(s, visits[0].id, visits[0].length, swapInterval), visits[1..], swapInterval)
  }

  /** The step attempts the swap of the chains id and id + 1. */
  predicate SwapsAt(s: State, v: Visit, id: nat) { id < |s.locked| && v.id == id && s.locked[id] }

  /** The step starts a cascade at the hottest chain of a stack. */
  predicate StartsAt(s: State, v: Visit, swapInterval: nat, id: nat)
    requires swapInterval > 0
  {
    v.id == id && id < |s.locked| && !s.locked[id] && v.length % swapInterval == 0
  }

  function One(b: bool): nat { if b then 1 else 0 }

  ghost function Swaps(s: State, visits: seq<Visit>, swapInterval: nat, id: nat): nat
    requires Possible(s, visits, swapInterval)
    decreases |visits|
  {
    if visits == [] then 0 else
      One(SwapsAt(s, visits[0], id))
      + Swaps(Stepped(s, visits[0].id, visits[0].length, swapInterval), visits[1..], swapInterval, id)
  }

  ghost function Starts(s: State, visits: seq<Visit>, swapInterval: nat, id: nat): nat
    requires Possible(s, visits, swapInterval)
    decreases |visits|
  {
    if visits == [] then 0 else
      One(StartsAt(s, visits[0], swapInterval, id))
      + Starts(Stepped(s, visits[0].id, visits[0].length, swapInterval), visits[1..], swapInterval, id)
  }

  /** The cascades that come down to the pair of id and id + 1: started there, or from the pair above. */
  ghost function Arrives(s: State, visits: seq<Visit>, swapInterval: nat, id: nat): nat
    requires Possible(s, visits, swapInterval)
  {
    if (id + 1) % s.nTemps == s.nTemps - 1 then Starts(s, visits, swapInterval, id + 1)
    else Swaps(s, visits, swapInterval, id + 1)
  }

  lemma OneStepMoves(s: State, v: Visit, swapInterval: nat, id: nat)
    requires Inv(s) && swapInterval > 0 && v.id in s.asked && id < |s.locked| && id % s.nTemps != s.nTemps - 1
    ensures var t := Stepped(s, v.id, v.length, swapInterval);
            && t.nTemps == s.nTemps && |t.locked| == |s.locked|
            && One(s.locked[id]) + One(if (id + 1) % s.nTemps == s.nTemps - 1 then StartsAt(s, v, swapInterval, id + 1)
                                       else SwapsAt(s, v, id + 1))
               == One(SwapsAt(s, v, id)) + One(t.locked[id])
  {
    NextInStack(id, s.nTemps, |s.locked|);
    StepWrites(s, v.id, v.length, swapInterval);
    NotBoth(s, v.id);
    var t := Stepped(s, v.id, v.length, swapInterval);
    hide Stepped, Inv;
    if v.id == id {
      assert One(s.locked[id]) == One(SwapsAt(s, v, id));
    } else if v.id == id + 1 {
      assert !s.locked[id] && !SwapsAt(s, v, id);
    } else {
      assert t.locked[id] == s.locked[id];
    }
  }

  /** A chain whose answer is read does not wait, and no hottest chain is locked. */
  lemma NotBoth(s: State, id: nat)
    requires Inv(s) && id in s.asked
    ensures id < |s.locked| && (id > 0 && id % s.nTemps != 0 ==> !s.locked[id - 1])
    ensures s.locked[id] ==> id % s.nTemps != s.nTemps - 1
  {
    assert !WaitsForSwap(s, id);
  }

  /** No cascade is lost and none overtakes another: a pair's lock is open exactly when every cascade that has come down to the
      pair has swapped it. */
  lemma {:induction false} CascadesConserved(s: State, visits: seq<Visit>, swapInterval: nat, id: nat)
    requires Possible(s, visits, swapInterval) && id < |s.locked| && id % s.nTemps != s.nTemps - 1
    ensures var t := End(s, visits, swapInterval);
            && t.nTemps == s.nTemps && |t.locked| == |s.locked|
            && One(s.locked[id]) + Arrives(s, visits, swapInterval, id)
               == Swaps(s, visits, swapInterval, id) + One(t.locked[id])
    decreases |visits|
  {
    if visits != [] {
      OneStepMoves(s, visits[0], swapInterval, id);
      CascadesConserved(Stepped(s, visits[0].id, visits[0].length, swapInterval), visits[1..], swapInterval, id);
      hide Inv, Stepped, SwapsAt, StartsAt;
    }
  }

  /** Hence, where no chain waits before or after, every cascade of a stack has swapped every pair of it exactly once. */
  lemma {:induction false} CascadesReachAll(s: State, visits: seq<Visit>, swapInterval: nat, id: nat, hot: nat)
    requires Possible(s, visits, swapInterval) && id < hot < |s.locked| && hot % s.nTemps == s.nTemps - 1
    requires forall c | id <= c < hot :: c % s.nTemps != s.nTemps - 1
    requires forall c | id <= c < hot :: !s.locked[c]
    requires var t := End(s, visits, swapInterval);
             |t.locked| == |s.locked| ==> forall c | id <= c < hot :: !t.locked[c]
    ensures Swaps(s, visits, swapInterval, id) == Starts(s, visits, swapInterval, hot)
    decreases hot - id
  {
    CascadesConserved(s, visits, swapInterval, id);
    hide Possible, Inv, End, Starts, Swaps;
    if id + 1 < hot {
      CascadesReachAll(s, visits, swapInterval, id + 1, hot);
    }
  }

  class Sampler {
    const nTemps: nat
    const swapInterval: nat
    var locked: seq<bool>
    var numOutstanding: int
    ghost var asked: set<nat>
    var submitted: seq<nat>       // what was submitted, by chain
    var swaps: seq<(nat, nat)>    // the swaps attempted

    ghost function Abstract(): State
      reads this
    {
      State(nTemps, locked, asked, numOutstanding)
    }

    /** All chains of a chain array, whose number is a multiple of the number of temperatures, propose. */
    constructor (nTotalChains: nat, nTemps: nat, swapInterval: nat)
      requires nTemps > 0 && swapInterval > 0 && ColdAt(nTotalChains, nTemps)
      ensures Inv(Abstract()) && this.nTemps == nTemps && this.swapInterval == swapInterval
      ensures |locked| == nTotalChains && asked == Chains(nTotalChains)
    {
      hide Inv, Chains, ColdAt;
      var n := nTotalChains;
      this.nTemps, this.swapInterval := nTemps, swapInterval;
      locked := seq(n, _ => false);
      numOutstanding, asked, submitted, swaps := 0, {}, [], [];
      new;
      var i := 0;
      while i < n
        invariant 0 <= i <= n && locked == seq(n, _ => false)
        invariant asked == Chains(n) - Chains(n - i) && numOutstanding == |asked|
      {
        var c := n - i - 1;
        OneMoreChain(n, c);
        Propose(c);
        i := i + 1;
      }
      NoChains();
      assert asked == Chains(n);
      FreshHolds(Abstract());
    }

    method Propose(id: nat)
      requires id !in asked
      modifies this`asked, this`numOutstanding, this`submitted
      ensures Abstract() == Proposed(old(Abstract()), id) && submitted == old(submitted) + [id]
    {
      submitted := submitted + [id];
      numOutstanding := numOutstanding + 1;
      asked := asked + {id};
    }

    method Unlock(id: nat)
      requires nTemps > 0 && id + 1 < |locked| && id + 1 !in asked && id !in asked
      modifies this`asked, this`numOutstanding, this`locked, this`submitted
      ensures Abstract() == Unlocked(old(Abstract()), id) && |locked| == |old(locked)|
    {
      locked := locked[id := false];
      Propose(id + 1);
      if !ColdAt(id, nTemps) {
        locked := locked[id - 1 := true];
      } else {
        Propose(id);
      }
    }

    /** step, when the answer retrieved is for chain `id` and the chain has `length` states after it. Only chains with
        nothing outstanding submit, and a swap is tried only with a hotter neighbour of the same stack that waits. */
    method Step(id: nat, length: nat)
      requires Inv(Abstract()) && id in asked && swapInterval > 0
      modifies this
      ensures Inv(Abstract()) && Abstract() == Stepped(old(Abstract()), id, length, swapInterval)
      ensures swaps == old(swaps) + if old(locked)[id] then [(id, id + 1)] else []
      ensures old(locked)[id] ==> id + 1 < |locked| && id + 1 !in old(asked) && !ColdAt(id + 1, nTemps)
    {
      hide Inv, Stepped, Unlocked, Proposed, ColdAt, HotAt, IntervalEnds;
      StepKeeps(Abstract(), id, length, swapInterval);
      SteppedIs(Abstract(), id, length, swapInterval);
      ghost var before := Abstract();
      numOutstanding := numOutstanding - 1;
      asked := asked - {id};
      ghost var middle := Abstract();
      assert middle == Retrieved(before, id);
      hide Retrieved;
      if locked[id] {
        swaps := swaps + [(id, id + 1)];
        Unlock(id);
      } else if HotAt(id, nTemps) && IntervalEnds(length, swapInterval) && nTemps > 1 {
        locked := locked[id - 1 := true];
        assert Abstract() == middle.(locked := before.locked[id - 1 := true]);
      } else {
        Propose(id);
      }
    }
  }
}
