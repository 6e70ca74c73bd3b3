/** Runs of any step function, composed from pieces. */
module Runs {

  ghost predicate Path<S(!new), E>(step: (S, E) -> S, evs: seq<E>, states: seq<S>) {
    |states| == |evs| + 1 &&
    forall k {:trigger evs[k]} | 0 <= k < |evs| :: states[k + 1] == step(states[k], evs[k])
  }

  /** The events lead from `s` to `s'`. */
  ghost predicate Reaches<S(!new), E>(step: (S, E) -> S, s: S, evs: seq<E>, s': S) {
    exists states :: Path(step, evs, states) && states[0] == s && states[|evs|] == s'
  }

  lemma ReachesNothing<S(!new), E>(step: (S, E) -> S, s: S)
    ensures Reaches(step, s, [], s)
  {
    assert Path(step, [], [s]);
  }

  lemma ReachesOne<S(!new), E>(step: (S, E) -> S, s: S, ev: E)
    ensures Reaches(step, s, [ev], step(s, ev))
  {
    assert Path(step, [ev], [s, step(s, ev)]);
  }

  lemma ReachesConcat<S(!new), E>(step: (S, E) -> S, s: S, a: seq<E>, s1: S, b: seq<E>, s2: S)
    requires Reaches(step, s, a, s1) && Reaches(step, s1, b, s2)
    ensures Reaches(step, s, a + b, s2)
  {
    var first :| Path(step, a, first) && first[0] == s && first[|a|] == s1;
    var second :| Path(step, b, second) && second[0] == s1 && second[|b|] == s2;
    var (all, evs) := (first + second[1..], a + b);
    forall k {:trigger evs[k]} | 0 <= k < |evs| ensures all[k + 1] == step(all[k], evs[k]) {
      if k < |a| {
        assert evs[k] == a[k];
      } else {
        assert evs[k] == b[k - |a|];
      }
    }
    assert Path(step, evs, all);
  }
}
