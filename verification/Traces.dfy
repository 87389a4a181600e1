/** Runs of any transition system, given by its enabled steps and their effect. */
module Traces {

  ghost predicate Possible<S(!new), T(!new)>(can: (S, T) -> bool, next: (S, T) -> S, s: S, steps: seq<T>)
    decreases |steps|
  {
    steps == [] || (can(s, steps[0]) && Possible(can, next, next(s, steps[0]), steps[1..]))
  }

  ghost function After<S(!new), T(!new)>(next: (S, T) -> S, s: S, steps: seq<T>): S
    decreases |steps|
  {
    if steps == [] then s else After(next, next(s, steps[0]), steps[1..])
  }

  /** One run after another is a run. */
  lemma {:induction false} Compose<S(!new), T(!new)>(can: (S, T) -> bool, next: (S, T) -> S, s: S, a: seq<T>, b: seq<T>)
    requires Possible(can, next, s, a) && Possible(can, next, After(next, s, a), b)
    ensures Possible(can, next, s, a + b) && After(next, s, a + b) == After(next, After(next, s, a), b)
    decreases |a|
  {
    if a == [] {
      assert a + b == b;
    } else {
      Compose(can, next, next(s, a[0]), a[1..], b);
      assert (a + b)[0] == a[0] && (a + b)[1..] == a[1..] + b;
    }
  }

  /** What every step keeps, every run keeps. */
  lemma {:induction false} Keeps<S(!new), T(!new)>(can: (S, T) -> bool, next: (S, T) -> S, inv: S -> bool, s: S,
                                                   steps: seq<T>)
    requires forall r, t | inv(r) && can(r, t) :: inv(next(r, t))
    requires inv(s) && Possible(can, next, s, steps)
    ensures inv(After(next, s, steps))
    decreases |steps|
  {
    if steps != [] {
      Keeps(can, next, inv, next(s, steps[0]), steps[1..]);
    }
  }
}
