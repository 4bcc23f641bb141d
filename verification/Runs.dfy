/** Runs of a state machine. */
module Runs {

  function Run<S, E>(step: (S, E) -> S, s: S, events: seq<E>): S
    decreases |events|
  {
    if |events| == 0 then s else Run(step, step(s, events[0]), events[1..])
  }

  lemma {:induction false} RunThen<S, E>(step: (S, E) -> S, s: S, events: seq<E>, e: E)
    ensures Run(step, s, events + [e]) == step(Run(step, s, events), e)
    decreases |events|
  {
    if |events| == 0 {
      assert (events + [e])[0] == e && (events + [e])[1..] == [];
    } else {
      RunThen(step, step(s, events[0]), events[1..], e);
      assert (events + [e])[1..] == events[1..] + [e];
    }
  }

  /** Every step of the run is allowed in the state in which it happens. */
  predicate Along<S, E>(step: (S, E) -> S, ok: (S, E) -> bool, s: S, events: seq<E>)
    decreases |events|
  {
    |events| > 0 ==> ok(s, events[0]) && Along(step, ok, step(s, events[0]), events[1..])
  }

  /** What every allowed step keeps, every run of allowed steps keeps. */
  lemma {:induction false} AlongKeeps<S(!new), E(!new)>(step: (S, E) -> S, ok: (S, E) -> bool, inv: S -> bool, s: S, events: seq<E>)
    requires inv(s) && Along(step, ok, s, events) && forall s, e :: inv(s) && ok(s, e) ==> inv(step(s, e))
    ensures inv(Run(step, s, events))
    decreases |events|
  {
    if |events| > 0 {
      AlongKeeps(step, ok, inv, step(s, events[0]), events[1..]);
    }
  }

  lemma ShortRuns<S, E>(step: (S, E) -> S, s: S, a: E, b: E)
    ensures Run(step, s, [a]) == step(s, a) && Run(step, s, [a, b]) == step(step(s, a), b)
  {
    assert [a][1..] == [] && [a, b][1..] == [b] && [b][1..] == [];
    assert Run(step, step(s, a), [b]) == Run(step, step(step(s, a), b), []);
  }

  lemma {:induction false} RunParts<S, E>(step: (S, E) -> S, s: S, early: seq<E>, late: seq<E>)
    ensures Run(step, s, early + late) == Run(step, Run(step, s, early), late)
    decreases |early|
  {
    if |early| == 0 {
      assert early + late == late;
    } else {
      RunParts(step, step(s, early[0]), early[1..], late);
      assert (early + late)[1..] == early[1..] + late;
    }
  }
}
