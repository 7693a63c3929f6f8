/** The chains of all stacks are numbered through, coldest first in each (infer/chainarray.hpp): where stacks begin and end. */
module Stacks {

  lemma StackFits(cold: nat, rungs: nat, stacks: nat)
    requires rungs > 0 && cold % rungs == 0 && cold < stacks * rungs
    ensures cold + rungs <= stacks * rungs
  {
    var s := cold / rungs;
    assert cold == s * rungs;
    if s >= stacks {
      Multiples(stacks, s, rungs);
    } else {
      Multiples(s + 1, stacks, rungs);
    }
  }

  lemma Multiples(a: nat, b: nat, k: nat)
    requires a <= b
    ensures a * k <= b * k
  {
  }

  lemma StacksApart(cold: nat, other: nat, rungs: nat)
    requires rungs > 0 && cold % rungs == 0 && other % rungs == 0 && cold < other
    ensures cold + rungs <= other
  {
    var (s, t) := (cold / rungs, other / rungs);
    assert cold == s * rungs && other == t * rungs;
    if t <= s {
      Multiples(t, s, rungs);
    } else {
      Multiples(s + 1, t, rungs);
    }
  }
}
