/** Runs of a transition system: the notion every protocol between the two threads is stated in. */
module Runs {

  /** Which steps can be taken where, and where they lead. */
  datatype System<!S, !A> = System(enabled: (S, A) -> bool, next: (S, A) -> S)
  {
    ghost predicate Takes(s: S, step: A, after: S) {
      enabled(s, step) && after == next(s, step)
    }

    /** Each step is enabled where it is taken. */
    ghost predicate IsRun(s: S, steps: seq<A>)
      decreases |steps|
    {
      steps != [] ==> enabled(s, steps[0]) && IsRun(next(s, steps[0]), steps[1..])
    }

    ghost function After(s: S, steps: seq<A>): S
      decreases |steps|
    {
      if steps == [] then s else After(next(s, steps[0]), steps[1..])
    }
  }

  /** What every step of a run keeps holds after it. */
  lemma {:induction false} RunKeeps<S, A>(m: System<S, A>, kept: S -> bool, s: S, steps: seq<A>)
    requires m.IsRun(s, steps) && kept(s)
    requires forall t, a {:trigger m.next(t, a)} :: kept(t) && m.enabled(t, a) && a in steps ==> kept(m.next(t, a))
    ensures kept(m.After(s, steps))
    decreases |steps|
  {
    if steps != [] {
      RunKeeps(m, kept, m.next(s, steps[0]), steps[1..]);
    }
  }

  /** A run spelled out state by state. */
  lemma {:induction false} TraceIsRun<S, A>(m: System<S, A>, states: seq<S>, steps: seq<A>)
    requires |states| == |steps| + 1
    requires forall i :: 0 <= i < |steps| ==> m.Takes(states[i], steps[i], states[i + 1])
    ensures m.IsRun(states[0], steps) && m.After(states[0], steps) == states[|steps|]
    decreases |steps|
  {
    if steps != [] {
      assert m.Takes(states[0], steps[0], states[1]);
      TraceIsRun(m, states[1..], steps[1..]);
    }
  }

  /** One run after another. */
  lemma {:induction false} RunThenRun<S, A>(m: System<S, A>, s: S, first: seq<A>, second: seq<A>)
    requires m.IsRun(s, first) && m.IsRun(m.After(s, first), second)
    ensures m.IsRun(s, first + second) && m.After(s, first + second) == m.After(m.After(s, first), second)
    decreases |first|
  {
    if first == [] {
      assert first + second == second;
    } else {
      assert (first + second)[1..] == first[1..] + second;
      RunThenRun(m, m.next(s, first[0]), first[1..], second);
    }
  }
}
