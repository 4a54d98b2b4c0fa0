/** Runs of a state machine: a step may be taken when it is enabled, and then
    decides the next state. */
module Runs {

  predicate Valid<S, T>(enabled: (S, T) -> bool, act: (S, T) -> S, s: S, steps: seq<T>)
    decreases |steps|
  {
    steps == [] || (enabled(s, steps[0]) && Valid(enabled, act, act(s, steps[0]), steps[1..]))
  }

  function After<S, T>(act: (S, T) -> S, s: S, steps: seq<T>): S
    decreases |steps|
  {
    if steps == [] then s else After(act, act(s, steps[0]), steps[1..])
  }

  /** A list without the element at `i`: a thread that moves on, a job that is taken. */
  function Omit<T>(s: seq<T>, i: nat): (rest: seq<T>)
    requires i < |s|
    ensures forall x :: x in rest ==> x in s
    ensures forall x :: x in s && x != s[i] ==> x in rest
  {
    s[..i] + s[i + 1..]
  }

  lemma OmitOne<T>(s: seq<T>, i: nat)
    requires i < |s|
    ensures multiset(Omit(s, i)) + multiset{s[i]} == multiset(s)
  {
    assert s == s[..i] + ([s[i]] + s[i + 1..]);
  }

  lemma {:induction false} InTwo<S, T>(enabled: (S, T) -> bool, act: (S, T) -> S, s: S, a: seq<T>, b: seq<T>)
    requires Valid(enabled, act, s, a) && Valid(enabled, act, After(act, s, a), b)
    ensures Valid(enabled, act, s, a + b) && After(act, s, a + b) == After(act, After(act, s, a), b)
    decreases |a|
  {
    if a == [] {
      assert a + b == b;
    } else {
      InTwo(enabled, act, act(s, a[0]), a[1..], b);
      assert (a + b)[0] == a[0] && (a + b)[1..] == a[1..] + b;
    }
  }

  /** One step, and then a run. */
  lemma First<S, T>(enabled: (S, T) -> bool, act: (S, T) -> S, s: S, x: T, rest: seq<T>)
    requires enabled(s, x) && Valid(enabled, act, act(s, x), rest)
    ensures Valid(enabled, act, s, [x] + rest) && After(act, s, [x] + rest) == After(act, act(s, x), rest)
  {
    assert ([x] + rest)[1..] == rest;
  }

  /** Three steps through given states. */
  lemma Three<S, T>(enabled: (S, T) -> bool, act: (S, T) -> S, s: S, x: T, s1: S, y: T, s2: S, z: T, t: S)
    requires enabled(s, x) && act(s, x) == s1
    requires enabled(s1, y) && act(s1, y) == s2
    requires enabled(s2, z) && act(s2, z) == t
    ensures Valid(enabled, act, s, [x, y, z]) && After(act, s, [x, y, z]) == t
  {
    First(enabled, act, s2, z, []);
    First(enabled, act, s1, y, [z]);
    First(enabled, act, s, x, [y, z]);
    assert [z] + [] == [z] && [y] + [z] == [y, z] && [x] + [y, z] == [x, y, z];
  }

  /** What every enabled step keeps holds after every run. */
  lemma {:induction false} Invariant<S(!new), T(!new)>(
    enabled: (S, T) -> bool, act: (S, T) -> S, inv: S -> bool, s: S, steps: seq<T>)
    requires inv(s) && Valid(enabled, act, s, steps)
    requires forall x, t :: inv(x) && enabled(x, t) ==> inv(act(x, t))
    ensures inv(After(act, s, steps))
    decreases |steps|
  {
    if steps != [] {
      Invariant(enabled, act, inv, act(s, steps[0]), steps[1..]);
    }
  }

  /** The same for a machine whose steps are always enabled. */
  lemma {:induction false} Kept<S(!new), T(!new)>(act: (S, T) -> S, inv: S -> bool, s: S, steps: seq<T>)
    requires inv(s) && forall x, t :: inv(x) ==> inv(act(x, t))
    ensures inv(After(act, s, steps))
    decreases |steps|
  {
    if steps != [] {
      Kept(act, inv, act(s, steps[0]), steps[1..]);
    }
  }

  /** A run without a certain step is a run of the machine that lacks it. */
  lemma {:induction false} Lacking<S(!new), T(!new)>(
    enabled: (S, T) -> bool, narrower: (S, T) -> bool, act: (S, T) -> S, s: S, steps: seq<T>, out: T)
    requires Valid(enabled, act, s, steps) && out !in steps
    requires forall x, t :: narrower(x, t) <==> enabled(x, t) && t != out
    ensures Valid(narrower, act, s, steps)
    decreases |steps|
  {
    if steps != [] {
      assert steps[0] in steps;
      Lacking(enabled, narrower, act, act(s, steps[0]), steps[1..], out);
    }
  }
}
