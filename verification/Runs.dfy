/** Runs of a step system: `apply` gives the next state, or None when the step is not possible there. */
module Runs {
  import opened Options

  function Run<S, A>(apply: (S, A) -> Option<S>, s: S, steps: seq<A>): Option<S>
    decreases |steps|
  {
    if steps == [] then Some(s)
    else match apply(s, steps[0])
      case None => None
      case Some(s') => Run(apply, s', steps[1..])
  }

  /** `s` is where some schedule of steps leads. */
  ghost predicate Reaches<S, A(!new)>(apply: (S, A) -> Option<S>, boot: S, s: S) {
    exists steps: seq<A> :: Run(apply, boot, steps) == Some(s)
  }

  lemma ReachesBoot<S, A(!new)>(apply: (S, A) -> Option<S>, boot: S)
    ensures Reaches(apply, boot, boot)
  {
    assert Run(apply, boot, []) == Some(boot);
  }

  lemma {:induction false} RunSnoc<S, A>(apply: (S, A) -> Option<S>, s: S, steps: seq<A>, step: A)
    requires Run(apply, s, steps).Some?
    ensures Run(apply, s, steps + [step]) == apply(Run(apply, s, steps).value, step)
    decreases |steps|
  {
    if steps == [] {
      assert [] + [step] == [step] && [step][1..] == [];
      match apply(s, step) { case None => case Some(s') => assert Run(apply, s', [step][1..]) == Some(s'); }
    } else {
      assert (steps + [step])[1..] == steps[1..] + [step];
      RunSnoc(apply, apply(s, steps[0]).value, steps[1..], step);
    }
  }

  lemma ReachesNext<S, A(!new)>(apply: (S, A) -> Option<S>, boot: S, s: S, step: A) returns (s': S)
    requires Reaches(apply, boot, s) && apply(s, step).Some?
    ensures s' == apply(s, step).value && Reaches(apply, boot, s')
  {
    var steps :| Run(apply, boot, steps) == Some(s);
    RunSnoc(apply, boot, steps, step);
    s' := apply(s, step).value;
  }

  ghost predicate Keeps<S(!new), A(!new)>(apply: (S, A) -> Option<S>, inv: S -> bool) {
    forall s, step :: inv(s) && apply(s, step).Some? ==> inv(apply(s, step).value)
  }

  lemma {:induction false} RunKeeps<S(!new), A(!new)>(apply: (S, A) -> Option<S>, inv: S -> bool, s: S, steps: seq<A>)
    requires Keeps(apply, inv) && inv(s) && Run(apply, s, steps).Some?
    ensures inv(Run(apply, s, steps).value)
    decreases |steps|
  {
    if steps != [] {
      RunKeeps(apply, inv, apply(s, steps[0]).value, steps[1..]);
    }
  }

  /** What holds at the start and is kept by every step holds wherever a run leads. */
  lemma Invariant<S(!new), A(!new)>(apply: (S, A) -> Option<S>, inv: S -> bool, boot: S, s: S)
    requires Keeps(apply, inv) && inv(boot) && Reaches(apply, boot, s)
    ensures inv(s)
  {
    var steps :| Run(apply, boot, steps) == Some(s);
    RunKeeps(apply, inv, boot, steps);
  }
}
