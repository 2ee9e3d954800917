/** Programs of idempotent steps: what running them again, or going on after an interruption, comes to. */
module Converging {

  /** One step: the next state, and whether the step succeeded. */
  type Stepper<!S, !A> = (S, A) -> (S, bool)

  /** A run stops at the first step that fails. */
  function Run<S, A>(step: Stepper<S, A>, acts: seq<A>, st: S): (S, bool) {
    if acts == [] then (st, true)
    else
      var next := step(st, acts[0]);
      if !next.1 then next else Run(step, acts[1..], next.0)
  }

  lemma RunOne<S, A>(step: Stepper<S, A>, a: A, st: S)
    ensures Run(step, [a], st) == step(st, a)
  {
    assert [a][1..] == [];
  }

  lemma {:induction false} RunAppend<S, A>(step: Stepper<S, A>, a: seq<A>, b: seq<A>, st: S)
    ensures Run(step, a + b, st) == if Run(step, a, st).1 then Run(step, b, Run(step, a, st).0) else Run(step, a, st)
  {
    if a == [] {
      assert a + b == b;
    } else {
      assert (a + b)[1..] == a[1..] + b;
      var next := step(st, a[0]);
      if next.1 {
        RunAppend(step, a[1..], b, next.0);
      }
    }
  }

  /** A step that succeeded is in force, a step in force does nothing, and no step undoes another. */
  ghost predicate Sticks<S(!new), A(!new)>(step: Stepper<S, A>, inForce: (S, A) -> bool, acts: seq<A>) {
    && (forall st, a :: a in acts && step(st, a).1 ==> inForce(step(st, a).0, a))
    && (forall st, a :: a in acts && inForce(st, a) ==> step(st, a) == (st, true))
    && forall st, a, b :: a in acts && b in acts && inForce(st, b) ==> inForce(step(st, a).0, b)
  }

  predicate AllInForce<S, A(==)>(inForce: (S, A) -> bool, acts: seq<A>, st: S) {
    forall a :: a in acts ==> inForce(st, a)
  }

  lemma {:induction false} RunKeeps<S(!new), A(!new)>(
    step: Stepper<S, A>, inForce: (S, A) -> bool, all: seq<A>, acts: seq<A>, st: S, b: A)
    requires Sticks(step, inForce, all) && (forall a :: a in acts ==> a in all) && b in all && inForce(st, b)
    ensures inForce(Run(step, acts, st).0, b)
  {
    if acts != [] {
      assert acts[0] in acts;
      var next := step(st, acts[0]);
      if next.1 {
        RunKeeps(step, inForce, all, acts[1..], next.0, b);
      }
    }
  }

  lemma {:induction false} RunEstablishes<S(!new), A(!new)>(
    step: Stepper<S, A>, inForce: (S, A) -> bool, all: seq<A>, acts: seq<A>, st: S)
    requires Sticks(step, inForce, all) && (forall a :: a in acts ==> a in all) && Run(step, acts, st).1
    ensures AllInForce(inForce, acts, Run(step, acts, st).0)
  {
    if acts != [] {
      assert acts[0] in acts;
      var next := step(st, acts[0]).0;
      RunEstablishes(step, inForce, all, acts[1..], next);
      RunKeeps(step, inForce, all, acts[1..], next, acts[0]);
    }
  }

  lemma {:induction false} RunAbsorbs<S(!new), A(!new)>(
    step: Stepper<S, A>, inForce: (S, A) -> bool, all: seq<A>, acts: seq<A>, st: S)
    requires Sticks(step, inForce, all) && (forall a :: a in acts ==> a in all) && AllInForce(inForce, acts, st)
    ensures Run(step, acts, st) == (st, true)
  {
    if acts != [] {
      assert acts[0] in acts;
      RunAbsorbs(step, inForce, all, acts[1..], st);
    }
  }

  /** A run that was cut short and started again ends like one that never was interrupted, failing where it fails. */
  lemma ResumeIsUninterrupted<S(!new), A(!new)>(
    step: Stepper<S, A>, inForce: (S, A) -> bool, done: seq<A>, rest: seq<A>, st: S)
    requires Sticks(step, inForce, done + rest) && Run(step, done, st).1
    ensures Run(step, done + rest, Run(step, done, st).0) == Run(step, done + rest, st)
  {
    var cut := Run(step, done, st).0;
    RunEstablishes(step, inForce, done + rest, done, st);
    RunAbsorbs(step, inForce, done + rest, done, cut);
    RunAppend(step, done, rest, cut);
    RunAppend(step, done, rest, st);
  }

  function Times<S, A>(step: Stepper<S, A>, n: nat, acts: seq<A>, st: S): (S, bool) {
    if n == 0 then (st, true)
    else
      var before := Times(step, n - 1, acts, st);
      if before.1 then Run(step, acts, before.0) else before
  }

  /** Any number of runs is one run. */
  lemma {:induction false} ManyRunsAreOne<S(!new), A(!new)>(
    step: Stepper<S, A>, inForce: (S, A) -> bool, n: nat, acts: seq<A>, st: S)
    requires Sticks(step, inForce, acts) && n > 0
    ensures Times(step, n, acts, st) == Run(step, acts, st)
  {
    if n > 1 {
      ManyRunsAreOne(step, inForce, n - 1, acts, st);
      if Run(step, acts, st).1 {
        RunEstablishes(step, inForce, acts, acts, st);
        RunAbsorbs(step, inForce, acts, acts, Run(step, acts, st).0);
      }
    } else {
      assert Times(step, 0, acts, st) == (st, true);
    }
  }

  /** What a program has created is destroyed in the reverse of the order of its creation. */
  function Reversed<T(!new)>(s: seq<T>): (r: seq<T>)
    ensures |r| == |s|
    ensures forall i :: 0 <= i < |s| ==> r[i] == s[|s| - 1 - i]
    ensures forall x :: x in r <==> x in s
  {
    if s == [] then [] else [s[|s| - 1]] + Reversed(s[..|s| - 1])
  }
}
