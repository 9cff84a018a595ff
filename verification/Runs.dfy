/** Runs of a machine: from a state, one step after another as long as each is possible. */
module Runs {
  import opened Collections

  /** Where a schedule leads, if every step of it is possible; `next` is None on a step that is not. */
  ghost function Run<S, T>(next: (S, T) -> Option<S>, s: S, steps: seq<T>): Option<S>
    decreases |steps|
  {
    if steps == [] then Some(s)
    else
      match next(s, steps[0])
      case None => None
      case Some(after) => Run(next, after, steps[1..])
  }

  ghost predicate LeadsTo<S(!new), T(!new)>(next: (S, T) -> Option<S>, s: S, after: S) {
    exists steps :: Run(next, s, steps) == Some(after)
  }

  ghost predicate StepsKeep<S(!new), T(!new)>(next: (S, T) -> Option<S>, inv: S -> bool) {
    forall s, step :: inv(s) && next(s, step).Some? ==> inv(next(s, step).value)
  }

  /** What every step keeps, every run keeps. */
  lemma {:induction false} RunKeeps<S(!new), T(!new)>(next: (S, T) -> Option<S>, inv: S -> bool, s: S, steps: seq<T>)
    requires inv(s) && StepsKeep(next, inv) && Run(next, s, steps).Some?
    ensures inv(Run(next, s, steps).value)
    decreases |steps|
  {
    if steps != [] {
      RunKeeps(next, inv, next(s, steps[0]).value, steps[1..]);
    }
  }

  lemma LeadsToKept<S(!new), T(!new)>(next: (S, T) -> Option<S>, inv: S -> bool, s: S, after: S)
    requires inv(s) && StepsKeep(next, inv) && LeadsTo(next, s, after)
    ensures inv(after)
  {
    var steps :| Run(next, s, steps) == Some(after);
    RunKeeps(next, inv, s, steps);
  }

  lemma {:induction false} RunOn<S, T>(next: (S, T) -> Option<S>, s: S, first: seq<T>, rest: seq<T>)
    requires Run(next, s, first).Some?
    ensures Run(next, s, first + rest) == Run(next, Run(next, s, first).value, rest)
    decreases |first|
  {
    if first == [] {
      assert first + rest == rest;
    } else {
      RunOn(next, next(s, first[0]).value, first[1..], rest);
      assert (first + rest)[1..] == first[1..] + rest;
    }
  }

  lemma IsThere<S(!new), T(!new)>(next: (S, T) -> Option<S>, s: S)
    ensures LeadsTo(next, s, s)
  {
    assert Run(next, s, []) == Some(s);
  }

  lemma LeadsFurther<S(!new), T(!new)>(next: (S, T) -> Option<S>, s: S, middle: S, after: S)
    requires LeadsTo(next, s, middle) && LeadsTo(next, middle, after)
    ensures LeadsTo(next, s, after)
  {
    var first :| Run(next, s, first) == Some(middle);
    var rest :| Run(next, middle, rest) == Some(after);
    RunOn(next, s, first, rest);
  }

  lemma StepLeadsTo<S(!new), T(!new)>(next: (S, T) -> Option<S>, s: S, step: T)
    requires next(s, step).Some?
    ensures LeadsTo(next, s, next(s, step).value)
  {
    assert Run(next, s, [step]) == next(s, step);
  }

  /** One step more. */
  lemma OneMoreStep<S(!new), T(!new)>(next: (S, T) -> Option<S>, start: S, s: S, step: T)
    requires LeadsTo(next, start, s) && next(s, step).Some?
    ensures LeadsTo(next, start, next(s, step).value)
  {
    StepLeadsTo(next, s, step);
    LeadsFurther(next, start, s, next(s, step).value);
  }
}
