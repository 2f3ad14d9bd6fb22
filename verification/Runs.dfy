/** Runs of a transition relation, for the protocols modelled as state machines. */
module Runs {

  /** Consecutive states of `states` are related by `next`. */
  ghost predicate IsRun<S(!new)>(next: (S, S) -> bool, states: seq<S>) {
    && states != []
    && forall i, j | 0 <= i && j == i + 1 && j < |states| :: next(states[i], states[j])
  }

  /** What every step keeps, every run keeps. */
  lemma {:induction false} Invariance<S(!new)>(inv: S -> bool, next: (S, S) -> bool, states: seq<S>)
    requires IsRun(next, states) && inv(states[0])
    requires forall s, t | inv(s) && next(s, t) :: inv(t)
    ensures forall i | 0 <= i < |states| :: inv(states[i])
  {
    if |states| > 1 {
      var last := |states| - 1;
      var init := states[..last];
      assert forall i | 0 <= i < last :: init[i] == states[i];
      Invariance(inv, next, init);
      assert inv(init[last - 1]);
      assert next(states[last - 1], states[last]);
      forall i | 0 <= i < |states| ensures inv(states[i]) {
        if i < last { assert init[i] == states[i]; }
      }
    }
  }

  lemma ExtendRun<S(!new)>(next: (S, S) -> bool, states: seq<S>, last: S)
    requires IsRun(next, states) && next(states[|states| - 1], last)
    ensures IsRun(next, states + [last])
  {
    var more := states + [last];
    forall i, j | 0 <= i && j == i + 1 && j < |more| ensures next(more[i], more[j]) {
      assert more[i] == states[i];
      if j < |states| { assert more[j] == states[j]; }
    }
  }

  lemma SubRun<S(!new)>(next: (S, S) -> bool, states: seq<S>, from: nat, to: nat)
    requires IsRun(next, states) && from <= to < |states|
    ensures IsRun(next, states[from..to + 1])
  {
    var part := states[from..to + 1];
    forall i, j | 0 <= i && j == i + 1 && j < |part| ensures next(part[i], part[j]) {
      assert part[i] == states[from + i] && part[j] == states[from + j];
    }
  }

  /** A reflexive and transitive relation that every step respects relates any two states of a run. */
  lemma Progress<S(!new)>(grown: (S, S) -> bool, next: (S, S) -> bool, states: seq<S>, from: nat, to: nat)
    requires IsRun(next, states) && from <= to < |states|
    requires forall s :: grown(s, s)
    requires forall s, t | next(s, t) :: grown(s, t)
    requires forall s, t, u | grown(s, t) && grown(t, u) :: grown(s, u)
    ensures grown(states[from], states[to])
  {
    var part := states[from..to + 1];
    SubRun(next, states, from, to);
    Invariance((s: S) => grown(states[from], s), next, part);
    assert part[to - from] == states[to];
  }
}
