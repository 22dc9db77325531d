/** Runs of a state machine: a list of steps applied one after the other. */
module Runs {

  function RunOf<S, T>(s: S, steps: seq<T>, apply: (S, T) -> S): S
    decreases |steps|
  {
    if steps == [] then s else RunOf(apply(s, steps[0]), steps[1..], apply)
  }

  lemma {:induction false} RunOfAppend<S, T>(s: S, a: seq<T>, b: seq<T>, apply: (S, T) -> S)
    ensures RunOf(s, a + b, apply) == RunOf(RunOf(s, a, apply), b, apply)
    decreases |a|
  {
    if a == [] {
      assert a + b == b;
    } else {
      assert (a + b)[1..] == a[1..] + b;
      RunOfAppend(apply(s, a[0]), a[1..], b, apply);
    }
  }

  lemma RunOfOne<S, T>(s: S, a: T, apply: (S, T) -> S)
    ensures RunOf(s, [a], apply) == apply(s, a)
  {
    assert [a][1..] == [];
    assert RunOf(s, [a], apply) == RunOf(apply(s, a), [], apply);
  }

  lemma RunOfTwo<S, T>(s: S, a: T, b: T, apply: (S, T) -> S)
    ensures RunOf(s, [a, b], apply) == apply(apply(s, a), b)
  {
    assert [a, b] == [a] + [b];
    RunOfAppend(s, [a], [b], apply);
    RunOfOne(s, a, apply);
    RunOfOne(apply(s, a), b, apply);
  }

  lemma RunOfThree<S, T>(s: S, a: T, b: T, c: T, apply: (S, T) -> S)
    ensures RunOf(s, [a, b, c], apply) == apply(apply(apply(s, a), b), c)
  {
    assert [a, b, c] == [a, b] + [c];
    RunOfAppend(s, [a, b], [c], apply);
    RunOfTwo(s, a, b, apply);
    RunOfOne(apply(apply(s, a), b), c, apply);
  }

  /** The last of the first `i + 1` steps comes after the first `i`. */
  lemma RunOfNext<S, T>(s: S, steps: seq<T>, i: nat, apply: (S, T) -> S)
    requires i < |steps|
    ensures RunOf(s, steps[..i + 1], apply) == apply(RunOf(s, steps[..i], apply), steps[i])
  {
    assert steps[..i + 1] == steps[..i] + [steps[i]];
    RunOfAppend(s, steps[..i], [steps[i]], apply);
    RunOfOne(RunOf(s, steps[..i], apply), steps[i], apply);
  }

  /** The same step over and over. */
  function Repeat<T>(n: nat, x: T): seq<T> { seq(n, i requires 0 <= i < n => x) }

  lemma RepeatFirst<S, T>(s: S, n: nat, x: T, apply: (S, T) -> S)
    requires n > 0
    ensures RunOf(s, Repeat(n, x), apply) == RunOf(apply(s, x), Repeat(n - 1, x), apply)
  {
    assert Repeat(n, x)[1..] == Repeat(n - 1, x);
  }

  /** What holds after `k` repetitions and passes from each to the next holds after all `n`. */
  lemma {:induction false} RepeatHolds<S(!new), T>(s: S, k: nat, n: nat, x: T, apply: (S, T) -> S,
                                                   holds: (S, nat) -> bool)
    requires k <= n && holds(s, k)
    requires forall t: S, i: nat :: i < n && holds(t, i) ==> holds(apply(t, x), i + 1)
    ensures holds(RunOf(s, Repeat(n - k, x), apply), n)
    decreases n - k
  {
    if k < n {
      RepeatFirst(s, n - k, x, apply);
      RepeatHolds(apply(s, x), k + 1, n, x, apply, holds);
    }
  }
}
