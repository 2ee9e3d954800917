/** Runs that pass some optional extensions over, for whatever reason. */
module PgThinned {
  import opened Strings
  import opened Sequences
  import opened PgConfig
  import opened PgCluster
  import opened PgPlan
  import Converging

  /** What a run may pass over. */
  predicate Passable(act: Act) {
    (act.FetchBundle? || act.MakeExtension?) && act.ext.optional
  }

  predicate NonePassable(acts: seq<Act>) {
    forall act :: act in acts ==> !Passable(act)
  }

  /** The acts without some that may be passed over. */
  ghost predicate Thinned(acts: seq<Act>, kept: seq<Act>)
    decreases |acts|
  {
    if acts == [] then kept == []
    else
      || (Passable(acts[0]) && Thinned(acts[1..], kept))
      || (kept != [] && kept[0] == acts[0] && Thinned(acts[1..], kept[1..]))
  }

  lemma {:induction false} ThinnedSelf(acts: seq<Act>)
    ensures Thinned(acts, acts)
  {
    if acts != [] {
      ThinnedSelf(acts[1..]);
    }
  }

  lemma {:induction false} ThinnedIn(acts: seq<Act>, kept: seq<Act>, act: Act)
    requires Thinned(acts, kept) && act in kept
    ensures act in acts
    decreases |acts|
  {
    if Passable(acts[0]) && Thinned(acts[1..], kept) {
      ThinnedIn(acts[1..], kept, act);
    } else if act != kept[0] {
      ThinnedIn(acts[1..], kept[1..], act);
    }
  }

  lemma {:induction false} NothingThinned(acts: seq<Act>, kept: seq<Act>)
    requires Thinned(acts, kept) && NonePassable(acts)
    ensures kept == acts
    decreases |acts|
  {
    if acts != [] {
      assert acts[0] in acts;
      NothingThinned(acts[1..], kept[1..]);
      assert kept == [kept[0]] + kept[1..] && acts == [acts[0]] + acts[1..];
    }
  }

  lemma {:induction false} ThinnedAppend(a: seq<Act>, k: seq<Act>, b: seq<Act>, l: seq<Act>)
    requires Thinned(a, k) && Thinned(b, l)
    ensures Thinned(a + b, k + l)
    decreases |a|
  {
    if a == [] {
      assert a + b == b && k + l == l;
    } else {
      assert (a + b)[1..] == a[1..] + b;
      if Passable(a[0]) && Thinned(a[1..], k) {
        ThinnedAppend(a[1..], k, b, l);
      } else {
        ThinnedAppend(a[1..], k[1..], b, l);
        assert (k + l)[1..] == k[1..] + l;
      }
    }
  }

  lemma {:induction false} ThinnedSplit(a: seq<Act>, b: seq<Act>, kept: seq<Act>) returns (k: seq<Act>, l: seq<Act>)
    requires Thinned(a + b, kept)
    ensures kept == k + l && Thinned(a, k) && Thinned(b, l)
    decreases |a|
  {
    if a == [] {
      assert a + b == b;
      k, l := [], kept;
    } else {
      assert (a + b)[1..] == a[1..] + b;
      if Passable(a[0]) && Thinned(a[1..] + b, kept) {
        k, l := ThinnedSplit(a[1..], b, kept);
      } else {
        k, l := ThinnedSplit(a[1..], b, kept[1..]);
        k := [kept[0]] + k;
        assert k[1..] + l == kept[1..];
      }
    }
  }

  // ----- Weather

  /** Optional extensions among the first n acts have been passed over, and nothing has been done behind those. */
  ghost predicate WeatheredBy(
    env: Env, acts: seq<Act>, before: Cluster, after: Cluster, done: bool, n: nat, kept: seq<Act>)
  {
    && n <= |acts| && Thinned(acts[..n], kept) && after == Run(env, kept, before).0
    && (done ==> n == |acts| && Run(env, kept, before).1)
  }

  /** The state is one that a run goes through which passes some optional extensions over; `done` if it is its last. */
  ghost predicate Weathered(env: Env, acts: seq<Act>, before: Cluster, after: Cluster, done: bool) {
    exists n: nat, kept :: WeatheredBy(env, acts, before, after, done, n, kept)
  }

  lemma WeatheredThen(env: Env, acts: seq<Act>, more: seq<Act>, a: Cluster, b: Cluster, c: Cluster, done: bool)
    requires Weathered(env, acts, a, b, true) && Weathered(env, more, b, c, done)
    ensures Weathered(env, acts + more, a, c, done)
  {
    var m: nat, k :| WeatheredBy(env, acts, a, b, true, m, k);
    var n: nat, l :| WeatheredBy(env, more, b, c, done, n, l);
    assert acts[..m] == acts && (acts + more)[..|acts| + n] == acts + more[..n];
    ThinnedAppend(acts, k, more[..n], l);
    RunAppend(env, k, l, a);
    assert WeatheredBy(env, acts + more, a, c, done, |acts| + n, k + l);
  }

  lemma WeatheredPart(env: Env, acts: seq<Act>, more: seq<Act>, a: Cluster, b: Cluster, done: bool)
    requires Weathered(env, acts, a, b, done)
    ensures Weathered(env, acts + more, a, b, false)
  {
    var n: nat, kept :| WeatheredBy(env, acts, a, b, done, n, kept);
    assert (acts + more)[..n] == acts[..n];
    assert WeatheredBy(env, acts + more, a, b, false, n, kept);
  }

  lemma WeatheredNothing(env: Env, acts: seq<Act>, st: Cluster)
    ensures Weathered(env, acts, st, st, acts == [])
  {
    assert acts[..0] == [];
    assert WeatheredBy(env, acts, st, st, acts == [], 0, []);
  }

  /** An act that was carried out. */
  lemma WeatheredOne(env: Env, act: Act, st: Cluster)
    ensures Weathered(env, [act], st, Step(env, st, act).0, Step(env, st, act).1)
  {
    assert [act][..1] == [act];
    ThinnedSelf([act]);
    Converging.RunOne(Stepping(env), act, st);
    assert WeatheredBy(env, [act], st, Step(env, st, act).0, Step(env, st, act).1, 1, [act]);
  }

  /** An act that was passed over. */
  lemma WeatheredOver(env: Env, act: Act, st: Cluster)
    requires Passable(act)
    ensures Weathered(env, [act], st, st, true)
  {
    assert [act][..1] == [act] && [act][1..] == [] && Thinned([act], []);
    assert WeatheredBy(env, [act], st, st, true, 1, []);
  }
}
