/** Runs of a state machine: a step function applied to one event after the other. The lemmas take a run
    apart: where a list of events is the concatenation of two lists, the second is run from where the first
    one leads to; and a run of two or three events is as many steps. The write buffer, the tick queue, the
    lock and the election are such machines; each proves what its own steps keep. */
module Runs {

  ghost function RunOf<S, E>(step: (S, E) -> S, s: S, events: seq<E>): S
    decreases |events|
  {
    if events == [] then s else RunOf(step, step(s, events[0]), events[1..])
  }

  lemma {:induction false} RunConcat<S, E>(step: (S, E) -> S, s: S, a: seq<E>, b: seq<E>)
    ensures RunOf(step, s, a + b) == RunOf(step, RunOf(step, s, a), b)
    decreases |a|
  {
    if a == [] {
      assert a + b == b;
    } else {
      assert (a + b)[1..] == a[1..] + b;
      RunConcat(step, step(s, a[0]), a[1..], b);
    }
  }

  lemma RunTwo<S, E>(step: (S, E) -> S, s: S, a: E, b: E)
    ensures RunOf(step, s, [a, b]) == step(step(s, a), b)
  {
    assert [a, b][1..] == [b] && [b][1..] == [];
    assert RunOf(step, step(s, a), [b]) == RunOf(step, step(step(s, a), b), []);
  }

  lemma RunThree<S, E>(step: (S, E) -> S, s: S, a: E, b: E, c: E)
    ensures RunOf(step, s, [a, b, c]) == step(step(step(s, a), b), c)
  {
    assert [a, b, c][1..] == [b, c];
    RunTwo(step, step(s, a), b, c);
  }
}
