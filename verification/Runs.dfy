/**
 Runs of a deterministic step function, shared by the protocol modules.
 */
module Runs {

  function Run<S, E>(apply: (S, E) -> S, s: S, steps: seq<E>): S
    decreases |steps|
  {
    if steps == [] then s else Run(apply, apply(s, steps[0]), steps[1..])
  }

  lemma {:induction false} RunConcat<S, E>(apply: (S, E) -> S, s: S, a: seq<E>, b: seq<E>)
    ensures Run(apply, s, a + b) == Run(apply, Run(apply, s, a), b)
    decreases |a|
  {
    if a == [] {
      assert a + b == b;
    } else {
      assert (a + b)[0] == a[0] && (a + b)[1..] == a[1..] + b;
      RunConcat(apply, apply(s, a[0]), a[1..], b);
    }
  }

  /** A run ends with its last step. */
  lemma RunLast<S, E>(apply: (S, E) -> S, s: S, steps: seq<E>)
    requires steps != []
    ensures Run(apply, s, steps) == apply(Run(apply, s, steps[..|steps| - 1]), steps[|steps| - 1])
  {
    var first, last := steps[..|steps| - 1], steps[|steps| - 1];
    assert steps == first + [last];
    RunConcat(apply, s, first, [last]);
    var s' := Run(apply, s, first);
    assert Run(apply, apply(s', last), [last][1..]) == apply(s', last);
  }

  /** Some run leads from `s` to `s'`. */
  ghost predicate Reaches<S(!new), E(!new)>(apply: (S, E) -> S, s: S, s': S) {
    exists steps: seq<E> :: Run(apply, s, steps) == s'
  }

  lemma ReachesItself<S(!new), E(!new)>(apply: (S, E) -> S, s: S)
    ensures Reaches(apply, s, s)
  {
    assert Run(apply, s, []) == s;
  }

  lemma ReachesStep<S(!new), E(!new)>(apply: (S, E) -> S, s: S, s': S, step: E)
    requires Reaches(apply, s, s')
    ensures Reaches(apply, s, apply(s', step))
  {
    var steps: seq<E> :| Run(apply, s, steps) == s';
    RunConcat(apply, s, steps, [step]);
    assert Run(apply, apply(s', step), [step][1..]) == apply(s', step);
  }
}
